/** Runs of the streaming iterator: what its user sees, whatever is offered and asked for in whatever order. */
module PcmRuns {
  import opened Platform
  import opened SlidingWindows
  import opened PcmModel

  /** The user offers a chunk, or asks for the next window. */
  datatype Event = Offer(chunk: seq<int16>) | Take

  /** An iterator that has accepted `stream` and handed out every window that begins before `start`. */
  datatype View = View(s: State, stream: seq<int16>, start: nat)

  /** `Next` after its call of `HasNext`: the window, if one is ready, and the state it leaves. */
  ghost function Handed(t: State): (r: (seq<int16>, State))
    requires Bounded(t)
    ensures Bounded(r.1) && r.1.step == t.step && r.1.window == t.window
  {
    if t.hasNext then (Front(t), Emit(t)) else ([], t)
  }

  /** The stream's window at `start`, if it has one. */
  ghost function NextWindow(stream: seq<int16>, start: nat, window: nat): seq<int16> {
    if start + window <= |stream| then stream[start..start + window] else []
  }

  ghost function Apply(v: View, e: Event): (r: View)
    requires Bounded(v.s)
    ensures Bounded(r.s) && r.s.step == v.s.step && r.s.window == v.s.window
  {
    var t := HasNext(v.s);
    match e
    case Offer(chunk) =>
      var (u, ret) := Accept(t, chunk);
      View(u, if ret.Success? then v.stream + chunk else v.stream, v.start)
    case Take =>
      View(Handed(t).1, v.stream, if t.hasNext then v.start + v.s.step else v.start)
  }

  /**
   * What the iterator is for: it takes every chunk while the stream holds no further window, and hands out the
   * stream's next window, if there is one.
   */
  ghost predicate Right(v: View, e: Event)
    requires Bounded(v.s)
  {
    var t := HasNext(v.s);
    match e
    case Offer(chunk) => Accept(t, chunk).1.Success? <==> |v.stream| < v.start + v.s.window && chunk != []
    case Take =>
      && (t.hasNext <==> v.start + v.s.window <= |v.stream|)
      && Handed(t).0 == NextWindow(v.stream, v.start, v.s.window)
  }

  ghost predicate Faithful(v: View, events: seq<Event>)
    requires Bounded(v.s)
    decreases |events|
  {
    events == [] || (Right(v, events[0]) && Faithful(Apply(v, events[0]), events[1..]))
  }

  ghost predicate InOrder(v: View) {
    Good(v.s, v.stream, v.start) && v.s.window <= 2 * v.s.step + 1
  }

  lemma OfferKeeps(v: View, chunk: seq<int16>)
    requires InOrder(v)
    ensures Right(v, Offer(chunk)) && InOrder(Apply(v, Offer(chunk)))
  {
    HasNextSettles(v.s, v.stream, v.start);
    AcceptKeeps(HasNext(v.s), chunk, v.stream, v.start);
  }

  /** An iterator that has just answered `HasNext`; `next` and `r` are where `Next` leaves it. */
  lemma SettledHands(t: State, stream: seq<int16>, start: nat, w: seq<int16>, next: nat, r: State)
    requires Settled(t, stream, start) && w == NextWindow(stream, start, t.window)
    requires r == Handed(t).1 && next == if t.hasNext then start + t.step else start
    ensures t.hasNext <==> start + t.window <= |stream|
    ensures Handed(t).0 == w && Good(r, stream, next)
  {
    SettledFlag(t, stream, start);
    if t.hasNext {
      NextKeeps(t, stream, start, next, w);
      assert r == Emit(t);
    } else {
      assert r == t;
    }
  }

  lemma TakeIsRight(v: View, t: State, w: seq<int16>)
    requires Bounded(v.s) && t == HasNext(v.s) && Settled(t, v.stream, v.start)
    requires w == NextWindow(v.stream, v.start, v.s.window)
    ensures Right(v, Take)
  {
    SettledHands(t, v.stream, v.start, w, if t.hasNext then v.start + t.step else v.start, Handed(t).1);
  }

  lemma TakeApplied(v: View, t: State)
    requires Bounded(v.s) && t == HasNext(v.s)
    ensures Apply(v, Take) == View(Handed(t).1, v.stream, if t.hasNext then v.start + t.step else v.start)
  {
  }

  lemma TakeStays(v: View, t: State, r: View)
    requires Bounded(t) && Settled(t, v.stream, v.start)
    requires r == View(Handed(t).1, v.stream, if t.hasNext then v.start + t.step else v.start)
    ensures Good(r.s, r.stream, r.start)
  {
    SettledHands(t, v.stream, v.start, NextWindow(v.stream, v.start, t.window), r.start, r.s);
  }

  lemma TakeKeeps(v: View)
    requires InOrder(v)
    ensures Right(v, Take) && InOrder(Apply(v, Take))
  {
    HasNextSettles(v.s, v.stream, v.start);
    TakeIsRight(v, HasNext(v.s), NextWindow(v.stream, v.start, v.s.window));
    TakeApplied(v, HasNext(v.s));
    TakeStays(v, HasNext(v.s), Apply(v, Take));
  }

  lemma {:induction false} GoodIsFaithful(v: View, events: seq<Event>)
    requires InOrder(v)
    ensures Faithful(v, events)
    decreases |events|
  {
    if events != [] {
      match events[0] {
        case Offer(chunk) => OfferKeeps(v, chunk);
        case Take => TakeKeeps(v);
      }
      GoodIsFaithful(Apply(v, events[0]), events[1..]);
    }
  }

  // ---- Which configurations lose nothing ----

  lemma FirstEvent(v: View, e: Event, rest: seq<Event>)
    requires Bounded(v.s) && Faithful(v, [e] + rest)
    ensures Right(v, e) && Faithful(Apply(v, e), rest)
  {
    var events := [e] + rest;
    assert events[0] == e && events[1..] == rest;
  }

  lemma OfferFirst(v: View, chunk: seq<int16>, rest: seq<Event>)
    requires Bounded(v.s) && Faithful(v, [Offer(chunk)] + rest)
    requires |v.stream| < v.start + v.s.window && chunk != []
    ensures Accept(HasNext(v.s), chunk).1.Success?
    ensures Faithful(View(Fed(v.s, chunk), v.stream + chunk, v.start), rest)
  {
    FirstEvent(v, Offer(chunk), rest);
  }

  lemma TakeFirst(v: View, t: State, rest: seq<Event>)
    requires Bounded(v.s) && Faithful(v, [Take] + rest) && t == HasNext(v.s)
    ensures t.hasNext <==> v.start + v.s.window <= |v.stream|
    ensures Handed(t).0 == NextWindow(v.stream, v.start, v.s.window)
    ensures Faithful(View(Handed(t).1, v.stream, if t.hasNext then v.start + t.step else v.start), rest)
  {
    FirstEvent(v, Take, rest);
    TakeApplied(v, t);
  }

  /** A window in three pieces, the window, a step, and the next window. */
  ghost function LosingEvents(step: nat, window: nat): seq<Event>
    requires window >= 2
  {
    [Offer(Repeat(1, 0))] + ([Offer(Repeat(window - 2, 0))] + ([Offer(Repeat(1, 0))] +
    ([Take] + ([Offer(Repeat(step, 0))] + ([Take] + [])))))
  }

  /** If the iterator is faithful, it finds the second window. */
  lemma FindsNextWindow(v: View, t: State, later: seq<int16>)
    requires Bounded(v.s) && v.start == 0 < |v.stream| == v.s.window && 0 < |later| == v.s.step
    requires t == HasNext(v.s) && Faithful(v, [Take] + ([Offer(later)] + ([Take] + [])))
    ensures t.hasNext ==> HasNext(Fed(Emit(t), later)).hasNext
  {
    TakeFirst(v, t, [Offer(later)] + ([Take] + []));
    if t.hasNext {
      var u := View(Emit(t), v.stream, t.step);
      OfferFirst(u, later, [Take] + []);
      var w := View(Fed(u.s, later), u.stream + later, u.start);
      TakeFirst(w, HasNext(w.s), []);
    }
  }

  lemma FindsAfterThree(step: nat, window: nat, cache: seq<int16>, later: seq<int16>)
    requires 0 < step && 2 * step + 1 < window && |cache| == CacheSizeFor(step, window) && later == Repeat(step, 0)
    requires Faithful(View(Fresh(step, window, cache), [], 0), LosingEvents(step, window))
    ensures var t := HasNext(FedInThree(step, window, cache, 0, Repeat(window - 2, 0), 0));
            t.hasNext ==> HasNext(Fed(Emit(t), later)).hasNext
  {
    var v := View(Fresh(step, window, cache), [], 0);
    var one, b := Repeat(1, 0), Repeat(window - 2, 0);
    var behind := [Take] + ([Offer(later)] + ([Take] + []));
    OfferFirst(v, one, [Offer(b)] + ([Offer(one)] + behind));
    var v1 := View(Fed(v.s, one), [] + one, 0);
    OfferFirst(v1, b, [Offer(one)] + behind);
    var v2 := View(Fed(v1.s, b), v1.stream + b, 0);
    OfferFirst(v2, one, behind);
    assert one == [0];
    var v3 := View(Fed(v2.s, one), v2.stream + one, 0);
    FindsNextWindow(v3, HasNext(v3.s), later);
  }

  /** The code does not find it. */
  lemma LostAfterThree(step: nat, window: nat, cache: seq<int16>, later: seq<int16>)
    requires 0 < step && 2 * step + 1 < window && |cache| == CacheSizeFor(step, window) && later == Repeat(step, 0)
    ensures var t := HasNext(FedInThree(step, window, cache, 0, Repeat(window - 2, 0), 0));
            t.hasNext && !HasNext(Fed(Emit(t), later)).hasNext
  {
    LongWindowsAreLost(step, window, cache, 0, Repeat(window - 2, 0), 0, [later]);
    assert [later][0] == later && [later][1..] == [];
  }

  lemma LongWindowsAreNotFaithful(step: nat, window: nat, cache: seq<int16>)
    requires 0 < step && 2 * step + 1 < window && |cache| == CacheSizeFor(step, window)
    ensures !Faithful(View(Fresh(step, window, cache), [], 0), LosingEvents(step, window))
  {
    LostAfterThree(step, window, cache, Repeat(step, 0));
    if Faithful(View(Fresh(step, window, cache), [], 0), LosingEvents(step, window)) {
      FindsAfterThree(step, window, cache, Repeat(step, 0));
    }
  }

  /** A chunk that is longer than the cache and shorter than a window is refused and forgotten. */
  lemma ChunkIsForgotten(s: State, chunk: seq<int16>)
    requires Bounded(s) && s.numCopy == 0 && s.size == 0 && s.data == [] && !s.hasNext
    requires |s.cache| < |chunk| < s.window
    ensures HasNext(s) == s
    ensures var (t, ret) := Accept(s, chunk);
            && ret == MemoryCopyFailure
            && HasNext(t) == s.(numReal := 0, cache := Repeat(|s.cache|, 0))
  {
    var zeros := Copied(s.cache, 0, Repeat(|s.cache|, 0));
    assert zeros == Repeat(|s.cache|, 0);
    assert Copied(zeros, 0, Repeat(|zeros|, 0)) == zeros;
  }

  /** A cache too short for all but one sample of a window. */
  lemma ShortCacheIsNotFaithful(step: nat, window: nat, cache: seq<int16>)
    requires 0 < step <= window && |cache| < window - 1
    ensures !Faithful(View(Fresh(step, window, cache), [], 0), [Offer(Repeat(|cache| + 1, 0))] + [])
  {
    var s := Fresh(step, window, cache);
    var chunk := Repeat(|cache| + 1, 0);
    ChunkIsForgotten(s, chunk);
    if Faithful(View(s, [], 0), [Offer(chunk)] + []) {
      OfferFirst(View(s, [], 0), chunk, []);
    }
  }

  /**
   * Of the configurations that `Init` accepts, those that lose nothing, in no run of any length, are exactly those
   * with windows of at most two steps and a sample whose cache size is within the limit before it is cut to 32 bits.
   */
  lemma LosslessIff(step: nat, window: nat, cache: seq<int16>)
    requires 0 < step <= window < SIZE_T_MODULUS && |cache| == CacheSizeComputed(step, window) <= MAX_CACHE_SIZE
    ensures (forall events :: Faithful(View(Fresh(step, window, cache), [], 0), events)) <==>
            window <= 2 * step + 1 && CacheSizeFor(step, window) <= MAX_CACHE_SIZE
  {
    var v := View(Fresh(step, window, cache), [], 0);
    AcceptedSize(step, window);
    if CacheSizeFor(step, window) > MAX_CACHE_SIZE {
      ShortCacheIsNotFaithful(step, window, cache);
    } else if window > 2 * step + 1 {
      LongWindowsAreNotFaithful(step, window, cache);
    } else {
      FreshIsGood(step, window, cache);
      forall events
        ensures Faithful(v, events)
      {
        GoodIsFaithful(v, events);
      }
    }
  }

  lemma FreshIsGood(step: nat, window: nat, cache: seq<int16>)
    requires 0 < step <= window && |cache| == CacheSizeFor(step, window)
    ensures Good(Fresh(step, window, cache), [], 0)
  {
    assert Direct(Fresh(step, window, cache), [], 0);
  }

  // ---- When the caller may overwrite its chunk ----

  /** The stream as the iterator sees it once the rest of the caller's chunk reads `d`. */
  ghost function Seen(s: State, stream: seq<int16>, start: nat, d: seq<int16>): (r: seq<int16>)
    requires start + s.size <= |stream|
    ensures start <= |r|
  {
    if |stream| == start + s.size then stream else stream[..start + s.size] + d
  }

  /** While the cache holds no window, the iterator goes on in order, on the stream it sees. */
  lemma OverwrittenIsGood(s: State, stream: seq<int16>, start: nat, d: seq<int16>)
    requires Good(s, stream, start) && s.size < s.window && |d| == |s.data|
    ensures start + s.size <= |stream|
    ensures |Seen(s, stream, start, d)| == |stream|
    ensures |stream| > start + s.size ==> stream[start + s.size..] == s.data
    ensures Good(s.(data := d), Seen(s, stream, start, d), start)
  {
    var t := s.(data := d);
    assert Cached(t) == Cached(s);
    if Filling(s, stream, start) {
      assert Filling(t, stream, start);
    } else if Direct(s, stream, start) {
      assert Direct(t, Seen(s, stream, start, d), start);
    } else {
      assert Leftover(s, stream, start);
      assert stream[start..][..s.size] == Cached(s) && stream[start..][s.size..] == s.data;
      assert Seen(s, stream, start, d)[start..] == Cached(t) + d;
      assert Leftover(t, Seen(s, stream, start, d), start);
    }
  }

  /** What the cache then holds is the rest of the stream. */
  lemma CachedIsRest(s: State, stream: seq<int16>, start: nat)
    requires Good(s, stream, start) && |stream| == start + s.size
    ensures Cached(s) == stream[start..]
  {
    assert stream[start..][..s.size] == stream[start..];
  }

  ghost function OtherThan(x: int16): (r: int16)
    ensures r != x
  {
    if x == 0 then 1 else 0
  }

  /** The window handed out once a whole window more has been offered. */
  ghost function WindowAfter(s: State, more: seq<int16>): seq<int16>
    requires Bounded(s)
  {
    Handed(HasNext(Accept(HasNext(s), more).0)).0
  }

  lemma FaithfulShows(v: View, more: seq<int16>, u: View)
    requires Bounded(v.s) && |more| == v.s.window && u == Apply(v, Offer(more))
    requires Faithful(v, [Offer(more)] + ([Take] + []))
    ensures WindowAfter(v.s, more) == NextWindow(u.stream, v.start, v.s.window)
  {
    FirstEvent(v, Offer(more), [Take] + []);
    FirstEvent(u, Take, []);
  }

  /** Two streams that differ in the next window do not show the same window. */
  lemma WindowsDiffer(a: seq<int16>, b: seq<int16>, start: nat, window: nat, i: nat)
    requires start <= i < start + window <= |a| && |a| == |b| && a[i] != b[i]
    ensures NextWindow(a, start, window) != NextWindow(b, start, window)
  {
    assert NextWindow(a, start, window)[i - start] == a[i];
    assert NextWindow(b, start, window)[i - start] == b[i];
  }

  lemma OfferedStream(v: View, more: seq<int16>, u: View)
    requires Bounded(v.s) && |more| == v.s.window > 0 && u == Apply(v, Offer(more)) && Right(v, Offer(more))
    ensures v.start + v.s.window <= |u.stream| || |v.stream| < v.start
    ensures u.stream == if Accept(HasNext(v.s), more).1.Success? then v.stream + more else v.stream
  {
  }

  lemma AlteredIsSeen(s: State, stream: seq<int16>, start: nat, d: seq<int16>)
    requires Good(s, stream, start) && s.window <= 2 * s.step + 1 && s.size < s.window
    requires |stream| > start + s.size && |d| == |s.data| > 0 && d[0] != s.data[0]
    ensures !Faithful(View(s.(data := d), stream, start), [Offer(Repeat(s.window, 0))] + ([Take] + []))
  {
    var t, seen, more := s.(data := d), Seen(s, stream, start, d), Repeat(s.window, 0);
    OverwrittenIsGood(s, stream, start, d);
    assert stream[start + s.size] == s.data[0] && seen[start + s.size] == d[0];
    GoodIsFaithful(View(t, seen, start), [Offer(more)] + ([Take] + []));
    OnlyOneStream(t, seen, stream, start, more, start + s.size);
  }

  /** A state can be faithful to one continuation of the stream only. */
  lemma OnlyOneStream(s: State, a: seq<int16>, b: seq<int16>, start: nat, more: seq<int16>, i: nat)
    requires Bounded(s) && |more| == s.window > 0
    requires start <= i < start + s.window && i < |a| == |b| && a[i] != b[i]
    requires Faithful(View(s, a, start), [Offer(more)] + ([Take] + []))
    ensures !Faithful(View(s, b, start), [Offer(more)] + ([Take] + []))
  {
    var va, vb := View(s, a, start), View(s, b, start);
    var ua, ub := Apply(va, Offer(more)), Apply(vb, Offer(more));
    FirstEvent(va, Offer(more), [Take] + []);
    OfferedStream(va, more, ua);
    FaithfulShows(va, more, ua);
    assert ub.stream == if Accept(HasNext(s), more).1.Success? then b + more else b;
    WindowsDiffer(ua.stream, ub.stream, start, s.window, i);
    if Faithful(vb, [Offer(more)] + ([Take] + [])) {
      FaithfulShows(vb, more, ub);
    }
  }

  lemma CachedIsSafe(s: State, stream: seq<int16>, start: nat, d: seq<int16>, events: seq<Event>)
    requires Good(s, stream, start) && s.window <= 2 * s.step + 1 && s.size < s.window && |stream| == start + s.size
    requires |d| == |s.data|
    ensures Faithful(View(s.(data := d), stream, start), events)
  {
    OverwrittenIsGood(s, stream, start, d);
    GoodIsFaithful(View(s.(data := d), stream, start), events);
  }

  /**
   * While the cache holds no window, the caller may write over its chunk what it likes, without any window ever
   * showing it, exactly when the cache holds everything that the stream has left.
   */
  lemma OverwriteSafeIff(s: State, stream: seq<int16>, start: nat)
    requires Good(s, stream, start) && s.window <= 2 * s.step + 1 && s.size < s.window
    ensures (forall d: seq<int16>, events | |d| == |s.data| ::
               Faithful(View(s.(data := d), stream, start), events)) <==> |stream| == start + s.size
  {
    if |stream| == start + s.size {
      forall d: seq<int16>, events | |d| == |s.data|
        ensures Faithful(View(s.(data := d), stream, start), events)
      {
        CachedIsSafe(s, stream, start, d, events);
      }
    } else {
      OverwrittenIsGood(s, stream, start, s.data);
      AlteredIsSeen(s, stream, start, s.data[0 := OtherThan(s.data[0])]);
    }
  }

  // ---- Blocked iterators ----

  /** A window is ready that nobody will ask for: no chunk is taken any more. */
  ghost predicate Blocked(s: State) {
    Bounded(s) && s.hasNext && (s.window <= s.size || (s.size == 0 && s.window <= |s.data|))
  }

  lemma BlockedStays(s: State, chunk: seq<int16>, d: seq<int16>)
    requires Blocked(s) && |d| == |s.data|
    ensures HasNext(s) == s && Accept(s, chunk) == (s, Failure)
    ensures Blocked(s.(data := d))
  {
  }

  /** Windows that were not asked for block the iterator, whatever the caller does to the chunk they lie in. */
  lemma BehindBlocks(s: State, stream: seq<int16>, start: nat)
    requires Good(s, stream, start) && s.window <= 2 * s.step + 1 && start + s.window <= |stream|
    ensures Blocked(HasNext(s))
  {
    HasNextSettles(s, stream, start);
    SettledBlocks(HasNext(s), stream, start);
  }

  lemma SettledBlocks(t: State, stream: seq<int16>, start: nat)
    requires Settled(t, stream, start) && start + t.window <= |stream|
    ensures Blocked(t)
  {
    SettledFlag(t, stream, start);
  }

  lemma BehindRefuses(s: State, stream: seq<int16>, start: nat, chunk: seq<int16>)
    requires Good(s, stream, start) && s.window <= 2 * s.step + 1 && start + s.window <= |stream|
    ensures HasNext(s).hasNext && Accept(HasNext(s), chunk) == (HasNext(s), Failure) && Blocked(HasNext(s))
  {
    BehindBlocks(s, stream, start);
    BlockedStays(HasNext(s), chunk, HasNext(s).data);
  }

  /** Whatever is written over the chunk: the iterator goes on in order, or the cache holds a window and it is blocked. */
  lemma OverwrittenGoesOn(s: State, stream: seq<int16>, start: nat, d: seq<int16>)
    requires Good(s, stream, start) && |d| == |s.data|
    ensures if s.size < s.window then
              && start + s.size <= |stream| == |Seen(s, stream, start, d)|
              && Good(s.(data := d), Seen(s, stream, start, d), start)
            else
              Blocked(s.(data := d)) && start + s.window <= |stream|
  {
    if s.size < s.window {
      OverwrittenIsGood(s, stream, start, d);
    }
  }
}
