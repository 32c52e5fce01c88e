# A model of the AI engine's stateful cores

The AI engine is a client/server framework: applications hand audio and images to a client library, which sends
them to a server process that loads inference plugins, shares them between clients and returns the results. This
project models the pieces of it that carry the hard logic and proves what they are for: for all inputs, all runs, and
all interleavings of the steps the model takes. The lock and the response list step by critical section or statement;
the other server operations are single steps. `dafny verify dfyconfig.toml` verifies the whole.

| what | files |
|---|---|
| the streaming window iterator of keyword spotting, and sessions of it | `SlidingWindows`, `PcmModel`, `PcmRuns`, `PcmIterator`, `KwsSession` |
| the writer-preferring reader/writer lock | `RwLockModel`, `RwLock` |
| shared engines with reference counts | `EngineModel`, `EngineManager` |
| clients, packed transaction ids, teardown | `TransactionIds`, `ServerModel`, `ServerAdapter` |
| the sliding window of feature samples | `SlideWindow` |
| the four circular id searches | `IdRing`, `IdAllocators` |
| encoding and decoding of argument lists | `Codec`, `DataEncoding`, `DataDecoding` |
| image slices, inference, top scores | `TopK`, `ImageClassification` |
| futures, listeners and ownership of asynchronous responses | `FutureModel`, `FutureHistory`, `FutureFactory` |
| the response list between plugin threads and a worker | `ResponseQueueModel`, `ResponseQueue` |
| parcels in messages and shared memory | `IpcModel`, `IpcParcel` |
| integer widths, return codes, `memcpy_s` | `Platform` |

Where the original is an object whose methods change its fields, there is a class whose methods are proved against a
specification on values (`...Model`); the laws are lemmas about that specification, over single steps and whole runs.
What plugins, the plugin manager, the inference adapter, feature extraction, the remote call and the system's shared
memory calls answer are parameters, which stand for every answer.

## What the proofs found

Some promises hold only under a condition. Each condition is proved to be exact.

* The iterator loses nothing if and only if a window is at most two steps and one sample long, and the cache size that
  it needs is within the limit before it is cut to 32 bits. `Init` also accepts other configurations. With longer
  windows the leftover's move inside the cache overlaps itself, `memcpy_s` refuses it, its error is ignored, and
  windows are lost for good. With a size that was cut, a chunk that is longer than the cache and shorter than a window
  is refused and forgotten. Windows of a single sample work, although the size computation wraps. The configuration in
  use (3200 and 3360 samples) loses nothing.
* A `SlideWindowProcessor` whose buffer holds a single window overwrites the window it has just returned, unless
  the step is a whole window.
* Starting a transaction that is already live takes a reference that is never returned; from then on the engine
  is never unloaded, and Release is never told to unload fully.
* An engine whose Prepare refuses at its first start stays stored without users. Loading and unloading a session later
  removes it; in every other case that restores the server as it was.
* When a client is removed and some plugin's Release fails, that transaction keeps its engine and no adapter lists
  it any more.
* `GenerateSessionId` can return 0, which the interface documents as undefined, if and only if the client has just been
  reset because the service died, or at most 100 larger ids are left; the code tests for smaller values than 0 only.
* `FindSequenceId` can return an id that another caller has reserved and not yet stored if and only if that id is among
  the next 1025, which happens once the counter has wrapped.
* A response whose listener exists but whose client has no handler any more is neither delivered nor destroyed.
* The unlocked look at the response list is safe if and only if a client has at most one worker.
* When feature extraction or the remote call fails in the middle of a chunk, the iterator keeps the chunk's further
  windows, and every later call of the keyword spotting `SyncExecute` fails. When it fails on the last window of a
  chunk, the next call still reads the rest of that chunk from the caller's memory. Between calls the caller may
  overwrite its chunk if and only if the cache holds all that is left of the stream, as it does after every success.
* A part of a request that could not be put into shared memory is accepted if and only if what the receiver reads
  instead names a segment it can attach. That segment's bytes are then taken for the part. Accepted or
  not, the segment is removed, unless the system refuses. For the algorithm's part the id read is the length of the
  input; for the others it is what a failed read leaves.
* Sending has no upper limit for data in shared memory, receiving refuses more than 1 MiB; what follows a refused
  part in a request is not read, and its segments stay.
* The interface says that data beyond 200 bytes goes through shared memory; the code does so from 200 bytes on.
* `SyncExecute` answers success for an image smaller than the model's input, although nothing was inferred.

## Model

| member | source | states |
|---|---|---|
| `KwsSession.Session` | services/client/algorithm_sdk/asr/keyword_spotting/source/kws_sdk_impl.cpp:124-149 | chunking invariance: for every list of chunks, each fed and drained, the windows handed out are exactly the sliding windows of the concatenated stream, in order, none lost, repeated or altered, for every step and window with `window <= 2 * step + 1` whose cache fits |
| `KwsSession.FlattenIsConcatenation` | services/client/algorithm_sdk/asr/keyword_spotting/source/kws_sdk_impl.cpp:124-149 | the stream is every chunk, one after the other |
| `KwsSession.LosingSession` | services/client/algorithm_sdk/asr/keyword_spotting/source/kws_sdk_impl.cpp:124-148 | on the objects themselves, for every window longer than `2 * step + 1` whose cache fits: a session hands out one window and then accepts every chunk shorter than a window without ever answering that one is ready |
| `PcmRuns.LosslessIff` | services/client/algorithm_sdk/asr/keyword_spotting/source/pcm_iterator.cpp:48-203 | of all configurations Init accepts, whatever a new cache holds, those that lose nothing in any run of SetInput and Next are exactly those with `window <= 2 * step + 1` whose cache size is within the limit before it is cut to 32 bits |
| `PcmRuns.GoodIsFaithful` | services/client/algorithm_sdk/asr/keyword_spotting/source/pcm_iterator.cpp:89-203 | within the bound every run, in any order of SetInput and Next, takes chunks exactly while no window waits and hands out exactly the stream's windows |
| `PcmRuns.LongWindowsAreNotFaithful` | services/client/algorithm_sdk/asr/keyword_spotting/source/pcm_iterator.cpp:157-174 | beyond the bound one run of six calls misses a window |
| `PcmRuns.ShortCacheIsNotFaithful` | services/client/algorithm_sdk/asr/keyword_spotting/source/pcm_iterator.cpp:139-144 | with a cache that was cut short one call loses a chunk |
| `PcmRuns.ChunkIsForgotten` | services/client/algorithm_sdk/asr/keyword_spotting/source/pcm_iterator.cpp:139-171 | a chunk longer than the cache and shorter than a window is refused; the iterator is then as new, with a zeroed cache |
| `PcmRuns.OfferKeeps` | services/client/algorithm_sdk/asr/keyword_spotting/source/pcm_iterator.cpp:89-104 | SetInput is right and keeps the invariant in any run |
| `PcmRuns.TakeKeeps` | services/client/algorithm_sdk/asr/keyword_spotting/source/pcm_iterator.cpp:176-203 | so is Next, and so does it |
| `PcmRuns.OverwriteSafeIff` | services/client/algorithm_sdk/asr/keyword_spotting/source/pcm_iterator.cpp:157-172 | while the cache holds no window, the caller may write anything over its chunk, without any later run showing it, exactly when the cache holds all that the stream has left |
| `PcmRuns.AlteredIsSeen` | services/client/algorithm_sdk/asr/keyword_spotting/source/pcm_iterator.cpp:157-172 | otherwise a changed sample shows in the next window |
| `PcmRuns.OnlyOneStream` | services/client/algorithm_sdk/asr/keyword_spotting/source/pcm_iterator.cpp:176-203 | an iterator can go on faithfully with one stream only |
| `PcmRuns.OverwrittenIsGood` | services/client/algorithm_sdk/asr/keyword_spotting/source/pcm_iterator.cpp:157-172 | written over, it goes on in order with the cached samples and then the written ones |
| `PcmRuns.CachedIsRest` | services/client/algorithm_sdk/asr/keyword_spotting/source/pcm_iterator.cpp:157-172 | what the cache holds is then the rest of the stream |
| `PcmRuns.BehindRefuses` | services/client/algorithm_sdk/asr/keyword_spotting/source/pcm_iterator.cpp:95-98 | while a window of the stream waits, SetInput fails whatever it is given and leaves a state that later calls do not leave |
| `PcmRuns.BlockedStays` | services/client/algorithm_sdk/asr/keyword_spotting/source/pcm_iterator.cpp:95-98 | that state refuses every chunk and does not depend on what the caller's chunk holds |
| `PcmModel.LongWindowsAreLost` | services/client/algorithm_sdk/asr/keyword_spotting/source/pcm_iterator.cpp:157-174 | the same on the model, whatever a new cache holds |
| `PcmModel.StuckIsSilent` | services/client/algorithm_sdk/asr/keyword_spotting/source/pcm_iterator.cpp:160-174 | from the state in which the leftover's move overlaps itself, no list of short chunks ever makes a window ready again |
| `PcmModel.StuckStays` | services/client/algorithm_sdk/asr/keyword_spotting/source/pcm_iterator.cpp:160-166 | the refused overlapping move leaves the iterator in the same kind of state |
| `SlidingWindows.SlidingWindowsUnique` | services/client/algorithm_sdk/asr/keyword_spotting/source/pcm_iterator.cpp:176-203 | a stream has only one list of windows, so the session's result is determined by the stream alone |
| `KwsSession.Drain` | services/client/algorithm_sdk/asr/keyword_spotting/source/kws_sdk_impl.cpp:129-148 | the loop terminates: at the first error of feature extraction or remote call, or with fewer than a window of samples left, all held in the cache |
| `KwsSession.TakeAndExecute` | services/client/algorithm_sdk/asr/keyword_spotting/source/kws_sdk_impl.cpp:130-147 | one turn: the next window goes out, and the loop goes on only after a success |
| `KwsSession.StaysBlocked` | services/client/algorithm_sdk/asr/keyword_spotting/source/kws_sdk_impl.cpp:124-145 | after an error in a chunk that holds further windows every later call fails, whatever it brings and whatever the caller has written over that chunk, and hands out nothing |
| `KwsSession.TakeNext` | services/client/algorithm_sdk/asr/keyword_spotting/source/kws_sdk_impl.cpp:130-132 | each Next hands out the window at the next start and moves the start by one step |
| `KwsSession.HandIn` | services/client/algorithm_sdk/asr/keyword_spotting/source/kws_sdk_impl.cpp:124-128 | a chunk is taken exactly when it is not empty and no window of the stream waits; if one waits, the iterator is blocked |
| `KwsSession.SyncExecute` | services/client/algorithm_sdk/asr/keyword_spotting/source/kws_sdk_impl.cpp:124-149 | in order or blocked, whatever the caller has written over earlier chunks: fails and moves nothing exactly while windows wait or the chunk is empty; otherwise the windows go out in order up to the first error, and after a success the cache holds all that is left |
| `KwsSession.FeedChunk` | services/client/algorithm_sdk/asr/keyword_spotting/source/kws_sdk_impl.cpp:124-149 | the caller overwrites its chunk once the call has returned, whatever its code: the stream goes on with what the cache holds and then with what was written, which after a success is nothing; or the iterator is blocked |
| `KwsSession.FeedNext` | services/client/algorithm_sdk/asr/keyword_spotting/source/kws_sdk_impl.cpp:124-149 | after calls that succeed the caller may overwrite its chunk, and the next chunk continues the stream |
| `KwsSession.Overwrite` | services/client/algorithm_sdk/asr/keyword_spotting/source/kws_sdk_impl.cpp:124-149 | what the iterator goes on with when the caller writes over a chunk, at any time between calls |
| `KwsSession.ForgettingSession` | services/client/algorithm_sdk/asr/keyword_spotting/source/kws_sdk_impl.cpp:124-128 | in every configuration whose cache size was cut, a chunk longer than the cache and shorter than a window is refused although no window waits, and then forgotten |
| `PcmIterator.PCMIterator.Init` | services/client/algorithm_sdk/asr/keyword_spotting/source/pcm_iterator.cpp:48-78 | which configurations are accepted, with the wrapping and 32-bit cut of the cache size |
| `PcmModel.CacheSizeExact` | services/client/algorithm_sdk/asr/keyword_spotting/source/pcm_iterator.cpp:64-66 | the wrapping computation of the cache size is exact below a billion samples, also for windows of one sample, where `maxNumRemain - 1` wraps |
| `PcmModel.AcceptedSize` | services/client/algorithm_sdk/asr/keyword_spotting/source/pcm_iterator.cpp:64-70 | every accepted size is either exact or less than a window by more than a sample, for every step and window |
| `PcmIterator.PCMIterator.SetInput` | services/client/algorithm_sdk/asr/keyword_spotting/source/pcm_iterator.cpp:89-104 | accepts a chunk exactly when it is not empty and no window is waiting; then the stream is the old one plus the chunk |
| `PcmIterator.PCMIterator.Accept` | services/client/algorithm_sdk/asr/keyword_spotting/source/pcm_iterator.cpp:95-103 | the fields and the code after a chunk is offered are the model's, in every configuration |
| `PcmIterator.PCMIterator.Prepare` | services/client/algorithm_sdk/asr/keyword_spotting/source/pcm_iterator.cpp:106-145 | the fields and the cache after a chunk arrives are those of the model's step, whatever way the chunk's memory is shared |
| `PcmIterator.PCMIterator.CompleteCache` | services/client/algorithm_sdk/asr/keyword_spotting/source/pcm_iterator.cpp:109-134 | completes the cache from the chunk as the model says |
| `PcmIterator.PCMIterator.FillCache` | services/client/algorithm_sdk/asr/keyword_spotting/source/pcm_iterator.cpp:111-131 | copies what the cache still misses and points `data` at what the leftover needs of the chunk, with the signed `diff` |
| `PcmIterator.PCMIterator.CopyBehindCached` | services/client/algorithm_sdk/asr/keyword_spotting/source/pcm_iterator.cpp:112-120 | the checked copy behind the cached samples, and when it fails |
| `PcmIterator.PCMIterator.PointBehind` | services/client/algorithm_sdk/asr/keyword_spotting/source/pcm_iterator.cpp:121-131 | `data` points at what windows from the chunk will need of it, by the signed `diff` |
| `PcmIterator.PCMIterator.TakeReady` | services/client/algorithm_sdk/asr/keyword_spotting/source/pcm_iterator.cpp:182-202 | a window that is ready is handed out whole and the start moves on by one step |
| `PcmIterator.PCMIterator.CopyToCache` | services/client/algorithm_sdk/asr/keyword_spotting/source/pcm_iterator.cpp:207-212 | the checked copy into the cache succeeds exactly when it fits and does not overlap |
| `PcmIterator.PCMIterator.MoveDataToCache` | services/client/algorithm_sdk/asr/keyword_spotting/source/pcm_iterator.cpp:205-218 | moves samples to the front of the cache and computes how many more it will take |
| `PcmIterator.PCMIterator.Recache` | services/client/algorithm_sdk/asr/keyword_spotting/source/pcm_iterator.cpp:157-172 | re-caches a leftover or a short chunk exactly as the model does, in every configuration |
| `PcmIterator.PCMIterator.HasNext` | services/client/algorithm_sdk/asr/keyword_spotting/source/pcm_iterator.cpp:157-174 | true exactly when the stream holds another whole window; when false, the cache holds as many samples as are left |
| `PcmIterator.PCMIterator.Settle` | services/client/algorithm_sdk/asr/keyword_spotting/source/pcm_iterator.cpp:157-174 | and those are the samples that are left |
| `PcmIterator.PCMIterator.Next` | services/client/algorithm_sdk/asr/keyword_spotting/source/pcm_iterator.cpp:176-203 | the window at `start` if the stream has it, else nothing; it lies in the cache or in the caller's chunk and holds those samples |
| `PcmIterator.PCMIterator.TakeFront` | services/client/algorithm_sdk/asr/keyword_spotting/source/pcm_iterator.cpp:182-201 | the window handed out and the state left are the model's |
| `PcmIterator.PCMIterator.PopCache` | services/client/algorithm_sdk/asr/keyword_spotting/source/pcm_iterator.cpp:185-190 | the cache after a window has left it |
| `PcmModel.MoveFills` | services/client/algorithm_sdk/asr/keyword_spotting/source/pcm_iterator.cpp:205-218 | a move that does not overlap leaves a cache whose last window begins at a cached sample and fits the buffer |
| `PcmModel.CompleteCacheKeeps` | services/client/algorithm_sdk/asr/keyword_spotting/source/pcm_iterator.cpp:109-134 | completing the cache cannot fail and keeps the cache's windows those of the stream |
| `PcmModel.FillCacheFits` | services/client/algorithm_sdk/asr/keyword_spotting/source/pcm_iterator.cpp:109-120 | the copy behind the cached samples always fits the buffer, and the cache's windows stay where they were |
| `PcmModel.FillCacheCaches` | services/client/algorithm_sdk/asr/keyword_spotting/source/pcm_iterator.cpp:111-120 | the cached samples grow by the chunk's first samples and stay a piece of the stream |
| `PcmModel.FillCompletes` | services/client/algorithm_sdk/asr/keyword_spotting/source/pcm_iterator.cpp:121-128 | a chunk that completes the cache leaves every window of the cache complete, with `data` behind them |
| `PcmModel.FillContinues` | services/client/algorithm_sdk/asr/keyword_spotting/source/pcm_iterator.cpp:129-131 | a chunk too short to complete the cache is wholly cached |
| `PcmModel.ReadySettles` | services/client/algorithm_sdk/asr/keyword_spotting/source/pcm_iterator.cpp:135-138 | raising the flag when a source holds a window is right |
| `PcmModel.ShortChunkSettles` | services/client/algorithm_sdk/asr/keyword_spotting/source/pcm_iterator.cpp:167-171 | the rest of a chunk that is shorter than a window moves to the cache whole |
| `PcmModel.FillCacheKeepsTail` | services/client/algorithm_sdk/asr/keyword_spotting/source/pcm_iterator.cpp:121-128 | once the cache is complete, `data` is what comes after it, with the overlap the leftover needs |
| `PcmModel.FillCacheKeeps` | services/client/algorithm_sdk/asr/keyword_spotting/source/pcm_iterator.cpp:109-131 | filling the cache keeps the invariant: still filling, or draining with every sample arrived |
| `PcmModel.PreparedSettles` | services/client/algorithm_sdk/asr/keyword_spotting/source/pcm_iterator.cpp:135-144 | the tail of Prepare leaves the flag and both sources consistent |
| `PcmModel.PrepareKeeps` | services/client/algorithm_sdk/asr/keyword_spotting/source/pcm_iterator.cpp:106-145 | Prepare cannot fail in a reachable state and appends its chunk to the stream |
| `PcmModel.LeftoverSettles` | services/client/algorithm_sdk/asr/keyword_spotting/source/pcm_iterator.cpp:160-166 | re-caching a leftover has disjoint source and destination up to `window <= 2 * step + 1` and loses no sample |
| `PcmModel.HasNextSettles` | services/client/algorithm_sdk/asr/keyword_spotting/source/pcm_iterator.cpp:157-174 | after HasNext the flag says whether a whole window is there |
| `PcmModel.SettledFlag` | services/client/algorithm_sdk/asr/keyword_spotting/source/pcm_iterator.cpp:157-174 | settled states: the flag is up exactly when the stream holds another window |
| `PcmModel.AcceptKeeps` | services/client/algorithm_sdk/asr/keyword_spotting/source/pcm_iterator.cpp:89-104 | a chunk is accepted exactly when no window waits and it is not empty, and it extends the stream |
| `PcmModel.FrontIsNextWindow` | services/client/algorithm_sdk/asr/keyword_spotting/source/pcm_iterator.cpp:182-197 | the window in front is the stream's next one, from whichever source it comes |
| `PcmModel.EmitKeeps` | services/client/algorithm_sdk/asr/keyword_spotting/source/pcm_iterator.cpp:182-201 | handing out a window keeps the invariant with the start one step on |
| `PcmModel.NextKeeps` | services/client/algorithm_sdk/asr/keyword_spotting/source/pcm_iterator.cpp:176-203 | Next returns the stream's next window and keeps the invariant |
| `PcmModel.FlagKeeps` | services/client/algorithm_sdk/asr/keyword_spotting/source/pcm_iterator.cpp:199-201 | clearing the flag when neither source holds a window is right |
| `PcmModel.PopCacheKeeps` | services/client/algorithm_sdk/asr/keyword_spotting/source/pcm_iterator.cpp:185-190 | after a window leaves the cache, the rest goes on filling or draining, or is the leftover |
| `PcmModel.PopBeforeLast` | services/client/algorithm_sdk/asr/keyword_spotting/source/pcm_iterator.cpp:185-186 | before its last window the cache just moves on by a step |
| `PcmModel.PopLast` | services/client/algorithm_sdk/asr/keyword_spotting/source/pcm_iterator.cpp:187-190 | after its last window the cache keeps exactly the samples that are not in the caller's chunk |
| `RwLockModel.ReachableIsSafe` | services/common/platform/lock/source/rw_lock.cpp:27-60 | for any number of threads and any interleaving with spurious wake-ups: never a reader with a writer, never two writers, no lost wake-up of writers or readers |
| `RwLockModel.StepKeepsInv` | services/common/platform/lock/source/rw_lock.cpp:27-60 | every critical section keeps exclusion, exact counters and no lost wake-up |
| `RwLockModel.RunKeepsInv` | services/common/platform/lock/source/rw_lock.cpp:27-60 | so does every run |
| `RwLockModel.ReadersYield` | services/common/platform/lock/source/rw_lock.cpp:27-32 | writer preference: a reader enters only when no announced writer waits or writes |
| `RwLockModel.BusyCanStep` | services/common/platform/lock/source/rw_lock.cpp:27-60 | the lock never hangs: while any thread is inside, some thread can run without outside help |
| `RwLockModel.EveryoneFinishes` | services/common/platform/lock/source/rw_lock.cpp:27-60 | once no thread joins, at most `n * (n + 2)` steps remain for `n` threads, and the end is an empty lock |
| `RwLockModel.UnlockReadKeeps` | services/common/platform/lock/source/rw_lock.cpp:42-48 | the last reader's notification keeps the invariant |
| `RwLockModel.UnlockWriteKeeps` | services/common/platform/lock/source/rw_lock.cpp:50-60 | handing on to a writer or to all readers keeps the invariant although the flag is cleared last |
| `RwLockModel.WakeReadKeeps` | services/common/platform/lock/source/rw_lock.cpp:30-31 | a woken reader that enters or sleeps again keeps the invariant |
| `RwLockModel.WakeWriteKeeps` | services/common/platform/lock/source/rw_lock.cpp:38-39 | a woken writer that enters or sleeps again keeps the invariant |
| `RwLockModel.SpuriousKeeps` | services/common/platform/lock/source/rw_lock.cpp:30-38 | spurious wake-ups keep the invariant |
| `RwLockModel.SleepersHaveCompany` | services/common/platform/lock/source/rw_lock.cpp:27-60 | the threads inside are never all asleep without a notification |
| `RwLockModel.UnlockShrinks` | services/common/platform/lock/source/rw_lock.cpp:42-60 | a thread that unlocks is gone, nobody else is |
| `RwLockModel.WakeShrinks` | services/common/platform/lock/source/rw_lock.cpp:30-39 | a notification is used up once |
| `RwLockModel.QuietRunsAreShort` | services/common/platform/lock/source/rw_lock.cpp:27-60 | runs without new requests are bounded |
| `RwLock.RwLock.EnterRead` | services/common/platform/lock/source/rw_lock.cpp:30-31 | the reader counts itself exactly when no writer is announced |
| `RwLock.RwLock.EnterWrite` | services/common/platform/lock/source/rw_lock.cpp:38-39 | the writer raises the flag exactly when nobody is inside |
| `RwLock.RwLock.LeaveRead` | services/common/platform/lock/source/rw_lock.cpp:45-47 | the counting and the notification of UnLockRead |
| `RwLock.RwLock.LeaveWrite` | services/common/platform/lock/source/rw_lock.cpp:53-59 | the counting and the notifications of UnLockWrite |
| `RwLock.RwLock.LockRead` | services/common/platform/lock/source/rw_lock.cpp:27-32 | the reader enters exactly when no writer is announced, and then counts itself |
| `RwLock.RwLock.ResumeRead` | services/common/platform/lock/source/rw_lock.cpp:30-31 | so does a notified reader |
| `RwLock.RwLock.LockWrite` | services/common/platform/lock/source/rw_lock.cpp:34-40 | the writer announces itself, and enters exactly when no reader is inside and the flag is down, which it then raises |
| `RwLock.RwLock.ResumeWrite` | services/common/platform/lock/source/rw_lock.cpp:38-39 | so does a notified writer, without another announcement |
| `RwLock.RwLock.UnLockRead` | services/common/platform/lock/source/rw_lock.cpp:42-48 | wakes one writer exactly when the last reader leaves and a writer is announced |
| `RwLock.RwLock.UnLockWrite` | services/common/platform/lock/source/rw_lock.cpp:50-60 | wakes one writer if any is announced, all readers otherwise |
| `EngineModel.ReferencesAreConserved` | services/server/server_executor/source/engine_manager.cpp:57-129 | over every run of starts and stops with any answers of Prepare and Release: an engine's count is the number of transactions using it plus the restarts of one of its live users |
| `EngineModel.RunKeepsInv` | services/server/server_executor/source/engine_manager.cpp:57-129 | over every run every mapped engine is stored, and no count is below the number of users |
| `EngineModel.StepKeepsInv` | services/server/server_executor/source/engine_manager.cpp:57-129 | each operation keeps that |
| `EngineModel.StepLeaks` | services/server/server_executor/source/engine_manager.cpp:85-86 | the difference between references and users grows only by a successful restart of a live transaction |
| `EngineModel.StartLeaks` | services/server/server_executor/source/engine_manager.cpp:57-88 | the same for StartEngine |
| `EngineModel.StopLeaks` | services/server/server_executor/source/engine_manager.cpp:90-129 | StopEngine never changes the difference |
| `EngineModel.EngineLeavesUnused` | services/server/server_executor/source/engine_manager.cpp:112-127 | an engine leaves `engines_` only by its last user's stop, and nobody is left mapped to it |
| `EngineModel.EngineLeavesIff` | services/server/server_executor/source/engine_manager.cpp:104-127 | over every run an engine leaves exactly at the stop that succeeds and whose Release was told to unload fully; then it had one user and no restarts |
| `EngineModel.ClientsFollowStarts` | services/server/server_executor/source/engine_manager.cpp:57-129 | over every run a transaction uses the engine of its last successful start, until a stop succeeds |
| `EngineModel.LastReference` | services/server/server_executor/source/engine_manager.cpp:104-106 | a count of one means that this transaction is the only user |
| `EngineModel.FullUnloadIsLastUser` | services/server/server_executor/source/engine_manager.cpp:104-106 | Release hears `isFullUnload` only from the last user; always from the last user if the engine saw no restart |
| `EngineModel.RestartedEngineStays` | services/server/server_executor/source/engine_manager.cpp:85-86 | after one restart of a live user the engine stays loaded whatever follows |
| `EngineManager.EngineManager.StartEngine` | services/server/server_executor/source/engine_manager.cpp:57-88 | in plain maps: succeeds exactly when the id is valid, the key's engine is stored or can be created, and Prepare succeeds; then the transaction runs on the engine of exactly that key, with one reference more; each failure's code and what it leaves, a new engine without references when Prepare refuses; nothing else changes |
| `EngineManager.EngineManager.Launch` | services/server/server_executor/source/engine_manager.cpp:65-87 | the same once the algorithm's id is known to be valid |
| `EngineManager.EngineManager.FindOrCreateEngine` | services/server/server_executor/source/engine_manager.cpp:238-257 | the stored engine of a key, or a new one with no references, and when there is none |
| `EngineManager.EngineManager.AddClient` | services/server/server_executor/source/engine_manager.cpp:85-86 | one reference more and the transaction mapped to the shared object |
| `EngineManager.EngineManager.StopEngine` | services/server/server_executor/source/engine_manager.cpp:90-129 | in plain maps: after a success the transaction is gone and its engine has one reference less, and is stored no more exactly when that was the last, which is when Release was told to unload fully; a failure changes nothing; nothing else changes |
| `TransactionIds.PackingRoundTrip` | services/server/communication_adapter/source/sa_server_adapter.cpp:44-47 | unpacking returns the session id and the adapter id for every 32-bit pair, negative ones included |
| `TransactionIds.PackingInjective` | services/server/communication_adapter/source/sa_server_adapter.cpp:104-107 | no two pairs share a transaction id |
| `TransactionIds.TransactionIdIsExact` | services/server/communication_adapter/source/sa_server_adapter.cpp:104-107 | shift and sum equal `adapter * 2^32 + session` |
| `TransactionIds.TransactionIdFits` | services/server/communication_adapter/source/sa_server_adapter.cpp:104-107 | the sum overflows only for the smallest adapter id with a negative session |
| `ServerModel.RunFromStart` | services/server/communication_adapter/source/sa_server_adapter.cpp:149-216 | over every run an adapter lists only its own live transactions; over every run without a failing teardown it lists all of them |
| `ServerModel.RunKeeps` | services/server/communication_adapter/source/sa_server_adapter.cpp:149-216 | the same from any state in order |
| `ServerModel.ListedUntilDirty` | services/server/communication_adapter/source/sa_server_adapter.cpp:69-87 | every live transaction stays listed exactly until a teardown meets a Release that fails |
| `ServerModel.RemoveIsClean` | services/server/communication_adapter/source/adapter_wrapper.cpp:221-234 | after a client is removed none of its transactions maps to an engine exactly when every Release succeeds |
| `ServerModel.RemoveEnds` | services/server/communication_adapter/source/adapter_wrapper.cpp:221-234 | removal ends exactly the transactions whose Release succeeds; other clients' mappings are unchanged |
| `ServerModel.StopAllClients` | services/server/communication_adapter/source/sa_server_adapter.cpp:83-86 | stopping the listed transactions in any order ends exactly those whose Release succeeds |
| `ServerModel.StepKeepsInv` | services/server/communication_adapter/source/adapter_wrapper.cpp:56-234 | every server operation keeps the adapters and the engine manager in order |
| `ServerModel.TwoSessions` | services/server/communication_adapter/source/adapter_wrapper.cpp:178-180 | loads of two sessions leave two transactions, each on its engine, both listed, and nothing else changed |
| `ServerModel.LoadThenUnload` | services/server/communication_adapter/source/adapter_wrapper.cpp:163-219 | unloading a session that was not live before its load restores the whole server, exactly unless a Prepare that refused had left its engine stored without references |
| `ServerAdapter.SaServerAdapter.LoadAlgorithm` | services/server/communication_adapter/source/sa_server_adapter.cpp:149-165 | a transaction is listed, and live on the engine of its key, exactly when id, creation and Prepare succeed |
| `ServerAdapter.SaServerAdapter.UnloadAlgorithm` | services/server/communication_adapter/source/sa_server_adapter.cpp:196-216 | a transaction is unlisted, and live no more, exactly when it was live and Release succeeds |
| `ServerAdapter.SaServerAdapter.Uninitialize` | services/server/communication_adapter/source/sa_server_adapter.cpp:69-87 | stops every listed transaction once and forgets them all; those whose Release succeeds, and no others, are live no more |
| `ServerAdapter.Server.AllocateClientAdapter` | services/server/communication_adapter/source/adapter_wrapper.cpp:56-70 | a new client gets an adapter with its id and no transactions; no other changes |
| `ServerAdapter.Server.LoadAlgoWrapper` | services/server/communication_adapter/source/adapter_wrapper.cpp:163-195 | for a connected client a successful load makes `client * 2^32 + session` and no other id live on the engine of the key, and lists it; otherwise nothing is live or listed that was not; when it succeeds |
| `ServerAdapter.Server.UnloadAlgoWrapper` | services/server/communication_adapter/source/adapter_wrapper.cpp:196-219 | ends exactly `client * 2^32 + session` when it is live and Release succeeds; the code in every case |
| `ServerAdapter.Server.RemoveAdapterWrapper` | services/server/communication_adapter/source/adapter_wrapper.cpp:221-234 | the client's entry goes; of its listed transactions those whose Release succeeds are live no more; no other adapter or transaction changes |
| `SlideWindow.SlideWindowProcessor.Process` | services/common/platform/os_wrapper/feature/source/slide_window_processor.cpp:101-146 | after every call the window the caller reads through the returned pointer, after the compaction, is the last window of the zero-padded history; or the clobbered one, in the case below |
| `SlideWindow.SafeIffAlwaysRight` | services/common/platform/os_wrapper/feature/source/slide_window_processor.cpp:137-145 | the window is right for every history exactly when the buffer holds two windows or the step is a whole window |
| `SlideWindow.ClobberedIsIntact` | services/common/platform/os_wrapper/feature/source/slide_window_processor.cpp:138-139 | a clobbered window is right exactly when it repeats itself every step |
| `SlideWindow.SlideWindowProcessor.Slide` | services/common/platform/os_wrapper/feature/source/slide_window_processor.cpp:126-145 | the returned region after append and compaction, and where the kept samples are |
| `SlideWindow.SlideWindowProcessor.Compact` | services/common/platform/os_wrapper/feature/source/slide_window_processor.cpp:138 | the move to the front keeps the next window's samples, and what it does to the window just returned |
| `SlideWindow.SlideWindowProcessor.Append` | services/common/platform/os_wrapper/feature/source/slide_window_processor.cpp:126-130 | the copy of a step fits the buffer and completes the window |
| `SlideWindow.SlideWindowProcessor.Advance` | services/common/platform/os_wrapper/feature/source/slide_window_processor.cpp:126-145 | the history grows by the input and the window shows its end |
| `SlideWindow.SlideWindowProcessor.Init` | services/common/platform/os_wrapper/feature/source/slide_window_processor.cpp:48-92 | which configurations are accepted, and the step and window in bytes for each data type; the processor starts with silence |
| `SlideWindow.LastBytesSlide` | services/common/platform/os_wrapper/feature/source/slide_window_processor.cpp:133-135 | dropping a step and appending the input gives the next window |
| `IdAllocators.SequenceIds.FindSequenceId` | services/server/server_executor/source/future_factory.cpp:72-90 | terminates, also across the wrap-around; the id is the first free one after the last, in range and unused; none beyond the limit |
| `IdAllocators.ClientIds.FindValidClientId` | services/server/communication_adapter/source/adapter_wrapper.cpp:38-54 | the same for client ids |
| `IdAllocators.SessionIds.GenerateSessionId` | services/client/client_executor/source/client_factory.cpp:234-251 | the same for session ids |
| `IdAllocators.SessionIds.ResetClient` | services/client/client_executor/source/client_factory.cpp:353-359 | once the service has died the counter stands below the range |
| `IdAllocators.ZeroSessionIff` | services/client/client_executor/source/client_factory.cpp:241-250 | wherever the counter stands, the search returns 0 exactly when 0 is free, and the client was reset or every id after the last one up to INT_MAX is in use |
| `IdAllocators.FirstAfterReset` | services/client/client_executor/source/client_factory.cpp:234-251 | the first session after a reset gets 0 exactly when no session still has it |
| `IdAllocators.ZeroSessionPossibleIff` | services/client/client_executor/source/client_factory.cpp:237-250 | some table of sessions makes it return 0 exactly after a reset, or while at most 100 larger ids are left |
| `IdAllocators.ShmKeys.AcquireShmSegment` | services/common/platform/os_wrapper/ipc/source/aie_ipc.cpp:54-80 | call `i` asks for the `i`-th key round the range; every call before the last found its key taken; success is the first key that is free, failure a refusal or 100000 keys taken; where the next search begins |
| `IdAllocators.ShmKeys.ExhaustedMeansAllTaken` | services/common/platform/os_wrapper/ipc/source/aie_ipc.cpp:56-68 | a search that reports exhaustion has asked for every key of the range and found it taken, and ends where it began |
| `IdRing.PassedAreUsed` | services/server/server_executor/source/future_factory.cpp:81-87 | pigeonhole: passing `k` used ids proves `k` ids in use |
| `IdRing.NthInjective` | services/server/server_executor/source/future_factory.cpp:81-87 | once around, no id comes twice |
| `IdRing.NthCovers` | services/common/platform/os_wrapper/ipc/source/aie_ipc.cpp:59-70 | once around, every id comes |
| `IdRing.ReturnsNthIff` | services/server/server_executor/source/future_factory.cpp:81-87 | a search returns the `m`-th id after the last exactly when that is free and all before it are in use |
| `IdRing.CanReturnIff` | services/server/server_executor/source/future_factory.cpp:76-87 | some table within the limit makes it return the `m`-th id exactly when the ids before it fit the table |
| `IdRing.CanReturnExactly` | services/server/server_executor/source/future_factory.cpp:76-87 | the ids a search can return are exactly the next `limit + 1`, counted across the wrap-around |
| `TopK.GetTopK` | services/server/plugin/cv/image_classification/source/ic_plugin.cpp:50-79 | for any scores and any `k >= 1`: `min(k, size)` of the pairs of label and score, best first, and no pair left out has a greater score than one kept |
| `TopK.TopKLabels` | services/server/plugin/cv/image_classification/source/ic_plugin.cpp:50-79 | up to 2^31 scores, where a 32-bit label is the index itself: labels are in range and distinct, each score is that of its label |
| `TopK.MakeHeap` | services/server/plugin/cv/image_classification/source/ic_plugin.cpp:67 | a heap with the same pairs |
| `TopK.PushHeap` | services/server/plugin/cv/image_classification/source/ic_plugin.cpp:73 | the last pair joins the heap before it; same pairs |
| `TopK.PopHeap` | services/server/plugin/cv/image_classification/source/ic_plugin.cpp:70 | the least pair goes last, the rest is a heap; same pairs |
| `TopK.SortHeap` | services/server/plugin/cv/image_classification/source/ic_plugin.cpp:77 | scores never increase; same pairs |
| `TopK.RootIsLeast` | services/server/plugin/cv/image_classification/source/ic_plugin.cpp:69 | the front of a heap has the least score |
| `TopK.HeapHoldsBest` | services/server/plugin/cv/image_classification/source/ic_plugin.cpp:68-76 | with nothing left out that is better than the front, the heap holds the best |
| `TopK.Consider` | services/server/plugin/cv/image_classification/source/ic_plugin.cpp:69-75 | one step of the loop keeps the heap and the rest apart: all pairs seen, none of the rest better than the front |
| `TopK.ReplaceFront` | services/server/plugin/cv/image_classification/source/ic_plugin.cpp:70-73 | pop, remove, append and push exchange exactly the least pair for the new one |
| `TopK.PairsAreDistinct` | services/server/plugin/cv/image_classification/source/ic_plugin.cpp:61 | up to 2^31 scores every pair is made once |
| `Codec.RoundTrip` | services/common/utils/encdec/include/encdec_facade.h:54-110 | decoding an encoded message with matching types returns what was encoded, items as all labels followed by all scores |
| `Codec.DecodesExactlyMessages` | services/common/utils/encdec/include/encdec_facade.h:91-110 | no false accept and no false reject: a buffer decodes to given values exactly when it is their message, trailer included |
| `Codec.OnlyMessagesDecode` | services/common/utils/encdec/include/data_decoder.h:69-83 | whatever decodes consumed the whole buffer and the trailer counts the payload |
| `Codec.OtherWidthIsRejected` | services/common/utils/encdec/include/data_decoder.h:69-83 | reading a message with fixed-width types of another total width is always rejected |
| `Codec.ParseAllExact` | services/common/utils/encdec/include/data_decoder.h:54-61 | reading a type list succeeds exactly on the encodings of values of those types |
| `Codec.ParseOneExact` | services/common/utils/encdec/include/data_decoder.h:94-116 | the same for one argument of any kind |
| `Codec.ParseStringExact` | services/common/utils/encdec/source/data_decoder.cpp:21-39 | the same for strings |
| `Codec.ParseArrayExact` | services/common/platform/os_wrapper/utils/plugin_helper.cpp:22-45 | the same for arrays |
| `Codec.ParseSizeExact` | services/common/utils/encdec/include/data_decoder.h:71-75 | the same for a `size_t` |
| `Codec.DecodedIsSamePayload` | services/common/platform/os_wrapper/utils/plugin_helper.cpp:75-94 | items and the one array they come back as have the same bytes |
| `Codec.NumberRoundTrip` | services/common/utils/encdec/include/data_encoder.h:133 | a number survives being written byte by byte |
| `Codec.BytesRoundTrip` | services/common/utils/encdec/include/data_decoder.h:110 | every byte string of a number's width is some number's |
| `DataEncoding.DataEncoder.ReallocBuffer` | services/common/utils/encdec/source/data_encoder.cpp:102-137 | a larger block holds the same bytes: chunks of 15 KiB and the tail, no copy can fail |
| `DataEncoding.DataEncoder.Ensure` | services/common/utils/encdec/source/data_encoder.cpp:94-100 | room for the increment, nothing written is lost |
| `DataEncoding.DataEncoder.EncodeFixed` | services/common/utils/encdec/include/data_encoder.h:112-139 | appends the object's bytes; fails exactly for a zero width or an encoder without a block |
| `DataEncoding.DataEncoder.EncodeString` | services/common/utils/encdec/source/data_encoder.cpp:140-165 | appends the length and the characters |
| `DataEncoding.DataEncoder.EncodeArray` | services/common/platform/os_wrapper/utils/plugin_helper.cpp:49-66 | appends size and elements; refuses an empty array |
| `DataEncoding.DataEncoder.EncodeItems` | services/common/platform/os_wrapper/utils/plugin_helper.cpp:75-94 | appends twice the count, all labels, all scores |
| `DataEncoding.DataEncoder.EncodeOneParameter` | services/common/utils/encdec/include/data_encoder.h:112-139 | appends the encoding of any value; fails exactly when the value cannot be encoded |
| `DataEncoding.DataEncoder.RecursiveEncode` | services/common/utils/encdec/include/data_encoder.h:72-79 | the buffer is the plain concatenation of the arguments' encodings |
| `DataEncoding.DataEncoder.GetSerializedData` | services/common/utils/encdec/source/data_encoder.cpp:66-92 | hands out everything written plus its length, unless that exceeds INT_MAX; then the encoder is spent |
| `EncdecFacade.ProcessEncode` | services/common/utils/encdec/include/encdec_facade.h:54-79 | succeeds exactly when no fixed-width argument is empty, no array is empty, and the message fits an `int`; the result is the message |
| `EncdecFacade.ProcessDecode` | services/common/utils/encdec/include/encdec_facade.h:91-110 | succeeds exactly when the bytes are the message of values of the requested types, of any width but zero and arrays handed in empty, and returns them |
| `DataDecoding.DataDecoder.Ensure` | services/common/utils/encdec/include/data_decoder.h:123-126 | true exactly when that many bytes are left; the sum cannot wrap |
| `DataDecoding.DataDecoder.DecodeFixed` | services/common/utils/encdec/include/data_decoder.h:94-116 | reads exactly the next bytes, never past the buffer, or changes nothing |
| `DataDecoding.DataDecoder.DecodeString` | services/common/utils/encdec/source/data_decoder.cpp:21-39 | reads exactly a string's encoding |
| `DataDecoding.DataDecoder.DecodeElems` | services/common/platform/os_wrapper/utils/plugin_helper.cpp:37-43 | reads exactly that many elements |
| `DataDecoding.DataDecoder.DecodeOneParameter` | services/common/utils/encdec/include/data_decoder.h:94-116 | reads exactly one argument, and refuses an array that is not handed in empty |
| `DataDecoding.DataDecoder.RecursiveDecode` | services/common/utils/encdec/include/data_decoder.h:54-61 | reads exactly a list of arguments |
| `DataDecoding.DataDecoder.CheckDataEnd` | services/common/utils/encdec/include/data_decoder.h:69-83 | true exactly when the trailer ends the buffer and counts the bytes before it, although the comparison wraps |
| `ImageClassification.SyncExecute` | services/client/algorithm_sdk/cv/image_classification/source/ic_sdk_impl.cpp:126-157 | end to end: for an image of the model's size the callback gets the best scores that the model produces for exactly that image, inferred once; a smaller image delivers nothing though success is answered; all other cases fail |
| `ImageClassification.OnSyncExecute` | services/client/algorithm_sdk/cv/image_classification/source/ic_sdk_impl.cpp:84-124 | slices without gap or overlap put the image together in the input space; inference runs once on the whole image, never for a smaller one, and for a larger one exactly if the slices that fit fill the space |
| `ImageClassification.SendAll` | services/client/algorithm_sdk/cv/image_classification/source/ic_sdk_impl.cpp:98-122 | the loop ends with the whole image sent, or at the first slice that does not fit or whose inference fails |
| `ImageClassification.StoppedAsExpected` | services/client/algorithm_sdk/cv/image_classification/source/ic_sdk_impl.cpp:98-122 | where the loop stopped determines which inference has run |
| `ImageClassification.SendNext` | services/client/algorithm_sdk/cv/image_classification/source/ic_sdk_impl.cpp:100-122 | one more slice: what has been sent is the image's beginning, in place |
| `ImageClassification.SendSlice` | services/client/algorithm_sdk/cv/image_classification/source/ic_sdk_impl.cpp:101-121 | a slice encoded by the client is stored by the plugin at its index |
| `ImageClassification.ICPlugin.SyncProcess` | services/server/plugin/cv/image_classification/source/ic_plugin.cpp:274-322 | acts on exactly the slices that arrive as well-formed messages; everything else changes nothing |
| `ImageClassification.ICPlugin.PutSlice` | services/server/plugin/cv/image_classification/source/ic_plugin.cpp:297-321 | stores a slice that fits at its index, touches no other model's input, and infers exactly when the slice ends the input |
| `ImageClassification.ICPlugin.DoProcess` | services/server/plugin/cv/image_classification/source/ic_plugin.cpp:324-364 | infers once on the whole input and answers with the top scores of that input |
| `ImageClassification.ICPlugin.SetOutputSize` | services/server/plugin/cv/image_classification/source/ic_plugin.cpp:185-225 | a known handle's message succeeds, and sets exactly the sizes the model can produce, never zero; failures change nothing |
| `ImageClassification.OptionIsRead` | services/server/plugin/cv/image_classification/source/ic_plugin.cpp:185-210 | the option's message is read back as the handle and the number |
| `ImageClassification.ICPlugin.Prepare` | services/server/plugin/cv/image_classification/source/ic_plugin.cpp:94-124 | for every answer of the adapter: a new handle returns five scores and travels back encoded; a known handle keeps its configuration and succeeds without an answer |
| `ImageClassification.SliceIsRead` | services/server/plugin/cv/image_classification/source/ic_plugin.cpp:289-296 | a slice's message is read back as the handle, the index and the slice |
| `ImageClassification.SliceLength` | services/client/algorithm_sdk/cv/image_classification/source/ic_sdk_impl.cpp:107 | how long a slice's message is |
| `ImageClassification.AnswerIsRead` | services/client/algorithm_sdk/cv/image_classification/source/ic_sdk_impl.cpp:140 | the plugin's answer is read back as all labels followed by all scores |
| `ImageClassification.MessageIsUnambiguous` | services/common/utils/encdec/include/encdec_facade.h:91-110 | a buffer is the message of at most one list of values of given types |
| `FutureModel.IdsStayDistinct` | services/server/server_executor/source/future_factory.cpp:72-120 | over every run, creators interleaving between FindSequenceId and AddFuture: ids reserved and stored are distinct, OnReply ran at most once per id, and for no id in use |
| `FutureModel.StepKeepsInv` | services/server/server_executor/source/future_factory.cpp:72-181 | every step keeps that and the conservation of responses |
| `FutureModel.RunKeepsInv` | services/server/server_executor/source/future_factory.cpp:72-181 | so does every run |
| `FutureModel.FutureOwnsAlone` | services/server/server_executor/source/future.cpp:79-93 | a response held by a future is held by no other, is in no queue, and was not destroyed, fetched or lost |
| `FutureModel.QueueOwnsAlone` | services/server/communication_adapter/source/client_listener_handler.cpp:143-152 | a queued response is queued once and was never destroyed, fetched or lost |
| `FutureModel.NothingLostIff` | services/server/communication_adapter/source/sa_async_handler.cpp:108-113 | at the end of a run every response the server accepted is held by a future, queued, destroyed or fetched, exactly when OnReply never found a listener whose client has no handler |
| `FutureModel.LostIsNowhere` | services/server/communication_adapter/source/sa_async_handler.cpp:108-113 | a response is nowhere exactly when that has happened to it |
| `FutureHistory.ResponsesArrive` | services/server/server_executor/source/future_factory.cpp:155-181 | at the end of every run a response for a live id goes to the end of the queue of the client that registered its transaction last, and to no other; without a listener the id keeps it; no other queue changes |
| `FutureHistory.QueueIsHistory` | services/server/communication_adapter/source/sa_async_handler.cpp:108-124 | over every run what a handler queues is what went to its client since it was added, in order, less what was fetched from the front |
| `FutureHistory.RunMatches` | services/server/server_executor/source/future_factory.cpp:72-200 | over every run reserved ids, live ids, their answers, listeners and queues are what the events say |
| `FutureModel.SetResponseConserves` | services/server/server_executor/source/future.cpp:84-93 | taking a response over destroys exactly the one held before |
| `FutureModel.DeliverConserves` | services/server/server_executor/source/future_factory.cpp:176-178 | OnReply, detach and delete move the response to the queue without destroying it |
| `FutureModel.DeleteConserves` | services/server/server_executor/source/future_factory.cpp:127-136 | deleting a future destroys exactly what it holds |
| `FutureModel.HandlersConserve` | services/server/communication_adapter/source/client_listener_handler.cpp:108-149 | adding a handler, removing it with its queue, and fetching keep every response in one place |
| `FutureModel.ReserveKeepsIds` | services/server/server_executor/source/future_factory.cpp:72-90 | a reserved id differs from all reserved and stored ones |
| `FutureModel.StoreKeepsIds` | services/server/server_executor/source/future_factory.cpp:115-120 | storing a future under a reserved id overwrites nothing |
| `FutureModel.RespondKeepsIds` | services/server/server_executor/source/future_factory.cpp:155-181 | an id is used up by its reply |
| `FutureModel.NextIdIsFirstFree` | services/server/server_executor/source/future_factory.cpp:81-87 | before the counter's end the search returns the next number |
| `FutureModel.ReservedAreSafeIff` | services/server/server_executor/source/future_factory.cpp:76-87 | wherever the counter stands and whatever futures are stored, the search returns none of the reserved ids exactly when none of them is among the next 1025 |
| `FutureModel.RepeatsReservedIff` | services/server/server_executor/source/future_factory.cpp:81-87 | it returns an id a creator still holds exactly when that id is not stored and all ids between the counter and it are |
| `FutureModel.WrapRepeatsReserved` | services/server/server_executor/source/future_factory.cpp:81-87 | an instance: at the counter's end it returns id 1 although a creator holds it |
| `FutureFactory.FutureFactory.FindSequenceId` | services/server/server_executor/source/future_factory.cpp:72-90 | the next number is reserved for the creator, or none with more than 1024 futures stored |
| `FutureFactory.FutureFactory.AddFuture` | services/server/server_executor/source/future_factory.cpp:115-120 | a new future without answer under the id, nothing else changed |
| `FutureFactory.FutureFactory.DeleteFuture` | services/server/server_executor/source/future_factory.cpp:127-136 | the future goes with the response it holds, nothing else changes |
| `FutureFactory.FutureFactory.RegisterListener` | services/server/server_executor/source/future_factory.cpp:138-142 | the transaction's responses go to this client from now on, nothing else changes |
| `FutureFactory.FutureFactory.UnregisterListener` | services/server/server_executor/source/future_factory.cpp:144-153 | and to nobody any more |
| `FutureFactory.FutureFactory.ProcessResponse` | services/server/server_executor/source/future_factory.cpp:155-181 | in plain maps: for a stored id whose transaction has a listener, success, the response at the end of the listener's client's queue if it has one, and the future gone; without a listener the future keeps the response, for another id nothing happens, each with its code; nothing else changes |
| `FutureFactory.FutureFactory.Deliver` | services/server/server_executor/source/future_factory.cpp:176-178 | OnReply, detach and delete: the response at the end of the client's queue, the future gone |
| `FutureFactory.FutureFactory.OnReply` | services/server/communication_adapter/source/future_listener.cpp:32-53 | appends the future's response to the client's list, if the client has one |
| `FutureFactory.FutureFactory.RegisterAsyncHandler` | services/server/communication_adapter/source/sa_async_handler.cpp:115-124 | a client gets one handler only; a new one queues nothing |
| `FutureFactory.FutureFactory.RemoveClientListenerHandler` | services/server/communication_adapter/source/sa_async_handler.cpp:59-67 | the handler goes with everything it queues |
| `FutureFactory.Future.SetResponse` | services/server/server_executor/source/future.cpp:84-93 | the future holds the new response, the old one is destroyed |
| `ResponseQueueModel.NothingLost` | services/server/communication_adapter/source/client_listener_handler.cpp:116-152 | with one worker and any number of plugin threads, statement by statement: added equals fetched followed by queued, in order; nothing is popped from an empty list; outside critical sections the event is set exactly when the list is not empty |
| `ResponseQueueModel.WaitingIsWoken` | services/common/platform/event/source/event.cpp:45-60 | a worker that waits while a response is queued finds the event set, or its setter can go on |
| `ResponseQueueModel.HandedInArrives` | services/server/communication_adapter/source/client_listener_handler.cpp:143-152 | over every run with one worker, a response was handed in as often as it was fetched, is in the list, or is with a thread on its way in |
| `ResponseQueueModel.RunConserves` | services/server/communication_adapter/source/client_listener_handler.cpp:143-152 | over every run with any workers, as often as it has entered the list or is with a thread on its way in |
| `ResponseQueueModel.CallsEnterInOrder` | services/server/communication_adapter/source/client_listener_handler.cpp:143-152 | over every run each thread's responses enter the list in the order of its calls, all but the one it may be about to add |
| `ResponseQueueModel.WaitingWorkerCanFetch` | services/server/communication_adapter/source/client_listener_handler.cpp:131-139 | from every such state the worker fetches the front within seven steps of the mutex's holder and its own |
| `ResponseQueueModel.SafeIffOneWorker` | services/server/communication_adapter/source/client_listener_handler.cpp:132-135 | from every start with a plugin thread, no run pops from an empty list if and only if there is at most one worker |
| `ResponseQueueModel.TwoWorkersCanPopNothing` | services/server/communication_adapter/source/client_listener_handler.cpp:132-135 | from every start, any two workers, any plugin thread and any response have a run in which one worker pops from an empty list and nobody else moves |
| `ResponseQueueModel.WithoutWorkersNobodyPops` | services/server/communication_adapter/source/client_listener_handler.cpp:143-152 | plugin threads alone never pop |
| `ResponseQueueModel.StepKeepsInv` | services/server/communication_adapter/source/client_listener_handler.cpp:116-152 | every statement of every thread keeps the invariant |
| `ResponseQueueModel.RunKeepsInv` | services/server/communication_adapter/source/client_listener_handler.cpp:116-152 | so does every run |
| `ResponseQueueModel.StepKeepsFlag` | services/server/communication_adapter/source/client_listener_handler.cpp:124-151 | the event's law is kept, with the moments in which a holder is about to restore it |
| `ResponseQueueModel.StepKeepsMutex` | services/server/communication_adapter/source/client_listener_handler.cpp:120-133 | critical sections exclude each other |
| `ResponseQueueModel.StepKeepsResponses` | services/server/communication_adapter/source/client_listener_handler.cpp:122-135 | what the worker saw without the mutex is still there when it has the mutex |
| `ResponseQueueModel.HolderLeaves` | services/server/communication_adapter/source/client_listener_handler.cpp:143-152 | a plugin thread inside leaves by itself within three steps |
| `ResponseQueueModel.WorkerFetches` | services/server/communication_adapter/source/client_listener_handler.cpp:132-139 | woken, the worker fetches the front in four steps of its own |
| `ResponseQueue.ClientListenerHandler.AddCallbackRecord` | services/server/communication_adapter/source/client_listener_handler.cpp:143-152 | the response is at the end of the list, and the event set if the list was empty |
| `ResponseQueue.ClientListenerHandler.FetchFirst` | services/server/communication_adapter/source/client_listener_handler.cpp:119-129 | takes the front exactly if there is one, and else changes nothing |
| `ResponseQueue.ClientListenerHandler.FetchSecond` | services/server/communication_adapter/source/client_listener_handler.cpp:132-139 | after the wait there is a front to take |
| `ResponseQueue.ClientListenerHandler.PopFront` | services/server/communication_adapter/source/client_listener_handler.cpp:134-138 | takes the front and resets the event exactly for the last |
| `ResponseQueue.Event.Signal` | services/common/platform/event/source/event.cpp:52-60 | sets the flag and tells whether it was clear |
| `ResponseQueue.Event.Reset` | services/common/platform/event/source/event.cpp:62-69 | clears the flag and tells whether it was set |
| `IpcModel.RequestRoundTrip` | services/server/communication_adapter/source/sa_server.c:144-166 | a whole request arrives with every field and byte exactly when each data part is at most 1 MiB, inline or shared; the segments are as before, but for those behind a refused part |
| `IpcModel.StrandedIff` | services/server/communication_adapter/source/sa_server.c:144-166 | segments are left behind exactly when a long part follows a part that is refused |
| `IpcModel.ParcelRoundTrip` | services/common/platform/os_wrapper/ipc/source/aie_ipc.cpp:234-293 | one data part comes back exactly up to 1 MiB, and either way its parcel is consumed and its segment removed |
| `IpcModel.SharedFromTwoHundred` | services/common/platform/os_wrapper/ipc/source/aie_ipc.cpp:259-264 | data travels in shared memory from exactly 200 bytes on, and in the message from 1 to 199 |
| `IpcModel.FailedPushLeavesNothing` | services/common/platform/os_wrapper/ipc/source/aie_ipc.cpp:97-130 | a push that fails leaves its segment exactly when the system created it and refuses to remove it |
| `IpcModel.RequestAcceptedIff` | services/server/communication_adapter/source/sa_server.c:144-166 | exactly when a request is accepted, whatever the system's calls answer to either side and whatever failed reads leave: every part in shared memory names a segment that can be attached, its own or, where a push failed, the one whose id happens to be read |
| `IpcModel.CutInputAcceptedIff` | services/common/platform/os_wrapper/ipc/source/aie_ipc.cpp:143-194 | if only the input's push failed: accepted exactly when what two failed reads leave names a segment that can be attached; its bytes are taken for the input, and it is removed |
| `IpcModel.CutParcelReleases` | services/common/platform/os_wrapper/ipc/source/aie_ipc.cpp:143-194 | the receiver of a part whose push failed releases the segment whose id its next read leaves, and takes that segment's bytes for the part exactly when it can attach it |
| `IpcModel.CutBeforeInput` | services/common/platform/os_wrapper/ipc/source/aie_ipc.cpp:143-194 | before the input, the id it reads is the length of the input |
| `IpcModel.RemainsRead` | services/common/platform/os_wrapper/ipc/source/aie_ipc.cpp:267-293 | what is left of the input is then accepted as no input, as the inline data it is, or as any other segment |
| `IpcModel.WholeParcelRead` | services/common/platform/os_wrapper/ipc/source/aie_ipc.cpp:267-293 | a parcel that is whole is read to its end, and accepted exactly if its segment can be attached |
| `IpcModel.PopRemovesTheSegment` | services/common/platform/os_wrapper/ipc/source/aie_ipc.cpp:143-194 | whatever arrives, a pop removes the segment whose id it read |
| `IpcModel.ClientRoundTrip` | services/server/communication_adapter/source/sa_server.c:68-94 | a client's fields and extension come back |
| `IpcModel.AlgorithmRoundTrip` | services/server/communication_adapter/source/sa_server.c:96-124 | an algorithm's fields and extension come back |
| `IpcModel.PushesCommute` | services/client/communication_adapter/source/sa_client_proxy.cpp:199-201 | pushes of several parts do not disturb each other's segments |
| `IpcParcel.SendAndReceive` | services/client/communication_adapter/source/sa_client_proxy.cpp:199-201 | parcelling a request and unparcelling it, on buffer and segments |
| `IpcParcel.ParcelDataInfo` | services/common/platform/os_wrapper/ipc/source/aie_ipc.cpp:234-265 | what is written for every data info, inline, shared or invalid, and which segments exist then |
| `IpcParcel.PushSharedMemory` | services/common/platform/os_wrapper/ipc/source/aie_ipc.cpp:89-134 | message and segments for every outcome of the system calls |
| `IpcParcel.UnParcelDataInfo` | services/common/platform/os_wrapper/ipc/source/aie_ipc.cpp:267-293 | result, rest of the message and segments for every message and every outcome |
| `IpcParcel.PopSharedMemory` | services/common/platform/os_wrapper/ipc/source/aie_ipc.cpp:143-194 | succeeds exactly when the id read is a live segment, the length is at most 1 MiB, and it can be attached and detached; the segment goes either way unless the system refuses |
| `IpcParcel.PopInline` | services/common/platform/os_wrapper/ipc/source/aie_ipc.cpp:203-231 | the same for the inline path |
| `IpcParcel.ParcelClientInfo` | services/client/communication_adapter/source/sa_client_proxy.cpp:87-97 | the client's part of a request, for every extension and every outcome of the system calls |
| `IpcParcel.ParcelAlgorithmInfo` | services/client/communication_adapter/source/sa_client_proxy.cpp:99-111 | the algorithm's part of a request, for every extension and every outcome of the system calls |
| `IpcParcel.ParcelRequest` | services/client/communication_adapter/source/sa_client_proxy.cpp:199-201 | the three parts together, for every content and every outcome of the system calls |
| `IpcParcel.UnParcelClientInfo` | services/server/communication_adapter/source/sa_server.c:68-94 | reads the client's part; a failed extension is dropped |
| `IpcParcel.UnParcelAlgorithmInfo` | services/server/communication_adapter/source/sa_server.c:96-124 | reads the algorithm's part; a failed extension is dropped |
| `IpcParcel.UnParcelInfo` | services/server/communication_adapter/source/sa_server.c:144-166 | reads the three parts up to the first that fails |
| `IpcParcel.SharedMemory.ReleaseShmId` | services/common/platform/os_wrapper/ipc/source/aie_ipc.cpp:37-46 | the segment is gone unless the id is invalid or the system refuses |
| `Platform.MemcpyS` | services/client/algorithm_sdk/asr/keyword_spotting/source/pcm_iterator.cpp:207-212 | `memcpy_s`, section K.3.7.1.1 of ISO/IEC 9899:2011: copies, or zeroes the destination and fails when the copy does not fit or overlaps |
| `Platform.MemmoveWithin` | services/common/platform/os_wrapper/feature/source/slide_window_processor.cpp:138 | `memmove_s` inside one buffer |

## Left out

- PcmIterator.PCMIterator.PopCache: `diff` is not cut to 32 bits, nor is that of `PointBehind`. It is computed where the cache holds a window or completes one, so for windows of at most 16384 samples.
- KwsSession.SyncExecute: what feature extraction and the remote call compute; only their codes matter here. The checks for a missing handle or callback before it.
- `PCMIterator::Reset` as a public restart: it nulls the cache.
- DataEncoding.DataEncoder.Ensure: the same bound as for `ProcessEncode` below.
- EncdecFacade.ProcessEncode: messages up to a third of the range of `size_t`, so that doubling the buffer does not wrap; on 64-bit builds this excludes nothing that fits memory, on 32-bit builds messages above 1.4 GB.
- ImageClassification.ICPlugin.SyncProcess: the sum of index and slice size is taken without wrap-around of `size_t`; the client's slices never come near it.
- ImageClassification.ICPlugin.DoProcess: models with at most 2^26 scores, so that the answer's length is an `int`.
- ImageClassification.SyncExecute: the error callbacks, and a transport that fails between client and plugin.
- TopK.GetTopK: the order among equal scores is left open, as the heap algorithms leave it.
- FutureModel.IdsStayDistinct: runs in which the 63-bit counter does not wrap, as in `FutureHistory`; `ReservedAreSafeIff` says what holds wherever it stands.
- FutureFactory.FutureFactory.ProcessResponse: taken as one step; lookups and deletion take the lock separately in the original.
- FutureFactory.FutureFactory.RegisterListener: the listener objects themselves, and that registering twice for a transaction drops the first one.
- ServerAdapter.Server.UnloadAlgoWrapper: stopping the asynchronous transaction before the unload; it changes listeners only.
- ServerAdapter.Server.LoadAlgoWrapper: the asynchronous transaction that a load for asynchronous use starts afterwards, and its return code.
- EngineManager.EngineManager.StopEngine: a plugin manager that is gone (a null pointer), after which the code returns with the count already lowered.
- EngineManager.EngineManager.StartEngine: each operation is one step; lookup and counting are not one critical section in the original. Missing plugins and managers (null pointers) are not modelled.
- ResponseQueueModel.NothingLost: the read of the list without the mutex is taken as atomic; the event's own mutex makes Signal and Reset single steps.
- IpcModel.RequestRoundTrip: the serializer behind `IpcIo` is not part of this model: a message is a queue of typed values without a capacity. A read of another type than was written leaves any value and consumes nothing; that it consumes nothing is an assumption, on which `RequestAcceptedIff` depends.
- IpcParcel.SharedMemory.Load: bytes past a segment's size are taken as the zeros of its last page.
- Numbers on the wire are little-endian; both ends of a connection run on the same machine, so only the round trip matters.
- Allocation failure, except where it is an input (shared memory, engine creation).
- `Queue`, `QueuePool`, `SimpleEventNotifier`: their bodies are not part of this model.
- `ThreadPool`: stopped threads share an id, so no partition of busy and idle threads holds.
- Connecting, reconnecting and destroying clients, and the registry of asynchronous callbacks: they depend on threads that sleep and retry.
- Stopping an engine while synchronous requests are queued; timeouts; thread creation.
- Feature arithmetic in floating point, type conversion, audio codecs, model and file loading, logging, singletons.
