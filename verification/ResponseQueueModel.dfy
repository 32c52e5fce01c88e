/**
 * A client handler's response list and its event, at the granularity of single statements: any number of plugin
 * threads add responses under the handler's mutex, and worker threads fetch them, waiting on the event between.
 */
module ResponseQueueModel {

  /** What a thread does next. A plugin thread adds, a worker fetches; both return to where they started. */
  datatype Pc =
    | Idle
    | Adding(response: int)   // takes the mutex
    | Inside(response: int)   // looks whether the list is empty, and appends
    | Pushed(wasEmpty: bool)  // signals the event if it was
    | Leaving                 // gives the mutex back
    | Fetching                // takes the mutex
    | Looking                 // takes the front, if there is one
    | Took                    // resets the event if that was the last
    | Returning               // gives the mutex back, with a response
    | GivingUp                // gives the mutex back, with none
    | Waiting                 // on the event
    | Woken                   // looks, without the mutex, whether the list is empty
    | Relocking               // takes the mutex again
    | Popping                 // takes the front

  datatype Holder = Free | HeldBy(thread: int)

  /** `added` and `fetched` record the responses that ever entered and left the list. */
  datatype State = State(mutex: Holder, flag: bool, responses: seq<int>, threads: map<int, Pc>,
                         added: seq<int>, fetched: seq<int>)

  datatype Event =
    | Call(t: int, response: int)
    | Step(t: int)
    | Timeout(t: int)

  ghost predicate NeedsMutex(pc: Pc) {
    pc.Adding? || pc.Fetching? || pc.Relocking?
  }

  ghost predicate InCritical(pc: Pc) {
    pc.Inside? || pc.Pushed? || pc.Leaving? || pc.Looking? || pc.Took? || pc.Returning? || pc.GivingUp? || pc.Popping?
  }

  ghost predicate IsWorker(pc: Pc) {
    pc.Fetching? || pc.Looking? || pc.Took? || pc.Returning? || pc.GivingUp? || pc.Waiting? || pc.Woken? ||
    pc.Relocking? || pc.Popping?
  }

  ghost predicate Enabled(s: State, e: Event) {
    && e.t in s.threads
    && var pc := s.threads[e.t];
       match e
       case Call(_, _) => pc.Idle?
       case Step(_) => !pc.Idle? && (NeedsMutex(pc) ==> s.mutex.Free?) && (pc.Waiting? ==> s.flag)
       case Timeout(_) => pc.Waiting? && !s.flag
  }

  ghost function At(s: State, t: int, pc: Pc): State {
    s.(threads := s.threads[t := pc])
  }

  ghost function Lock(s: State, t: int, pc: Pc): State {
    At(s, t, pc).(mutex := HeldBy(t))
  }

  ghost function Unlock(s: State, t: int, pc: Pc): State {
    At(s, t, pc).(mutex := Free)
  }

  ghost function Take(s: State, t: int): State
    requires s.responses != []
  {
    At(s, t, Took).(responses := s.responses[1..], fetched := s.fetched + [s.responses[0]])
  }

  /** `front` and `pop_front` of an empty list are undefined. */
  ghost predicate PopsNothing(s: State) {
    exists t :: t in s.threads && s.threads[t].Popping? && s.responses == []
  }

  ghost function StepOf(s: State, t: int): State
    requires t in s.threads
  {
    match s.threads[t]
    case Idle => s
    case Adding(r) => Lock(s, t, Inside(r))
    case Inside(r) => At(s, t, Pushed(s.responses == [])).(responses := s.responses + [r], added := s.added + [r])
    case Pushed(wasEmpty) => At(s, t, Leaving).(flag := s.flag || wasEmpty)
    case Leaving => Unlock(s, t, Idle)
    case Fetching => Lock(s, t, Looking)
    case Looking => if s.responses != [] then Take(s, t) else At(s, t, GivingUp)
    case Took => At(s, t, Returning).(flag := s.flag && s.responses != [])
    case Returning => Unlock(s, t, Fetching)
    case GivingUp => Unlock(s, t, Waiting)
    case Waiting => At(s, t, Woken)
    case Woken => At(s, t, if s.responses != [] then Relocking else Fetching)
    case Relocking => Lock(s, t, Popping)
    case Popping => if s.responses != [] then Take(s, t) else s
  }

  ghost function Apply(s: State, e: Event): State
    requires Enabled(s, e)
  {
    match e
    case Call(t, response) => At(s, t, Adding(response))
    case Step(t) => StepOf(s, t)
    case Timeout(t) => At(s, t, Fetching)
  }

  // ---- The invariant, with one worker ----

  /** A new handler: an empty list, plugin threads outside, and the workers about to fetch. */
  ghost predicate Starts(s: State, workers: set<int>) {
    && s.mutex.Free? && !s.flag && s.responses == s.added == s.fetched == []
    && workers <= s.threads.Keys
    && forall t :: t in s.threads ==> s.threads[t] == if t in workers then Fetching else Idle
  }

  ghost predicate OnlyWorker(s: State, w: int) {
    && w in s.threads && IsWorker(s.threads[w])
    && forall t :: t in s.threads && t != w ==> !IsWorker(s.threads[t])
  }

  ghost predicate MutexHeld(s: State) {
    && (s.mutex.HeldBy? ==> s.mutex.thread in s.threads)
    && forall t :: t in s.threads ==> (InCritical(s.threads[t]) <==> s.mutex == HeldBy(t))
  }

  /** The event is set exactly when the list is not empty, but for the moment before a holder puts that right. */
  ghost predicate FlagLaw(s: State) {
    if s.mutex.HeldBy? && s.mutex.thread in s.threads then
      match s.threads[s.mutex.thread]
      case Pushed(wasEmpty) => s.responses != [] && (s.flag <==> !wasEmpty)
      case Took => s.flag
      case _ => s.flag <==> s.responses != []
    else
      s.flag <==> s.responses != []
  }

  /** A worker that has seen a response without the mutex will still find one. */
  ghost predicate StillThere(s: State, w: int)
    requires w in s.threads
  {
    s.threads[w].Relocking? || s.threads[w].Popping? ==> s.responses != []
  }

  /** Nothing is lost, invented or reordered. */
  ghost predicate InOrder(s: State) {
    s.added == s.fetched + s.responses
  }

  ghost predicate Inv(s: State, w: int) {
    OnlyWorker(s, w) && MutexHeld(s) && FlagLaw(s) && StillThere(s, w) && InOrder(s)
  }

  lemma StepKeepsWorker(s: State, e: Event, w: int)
    requires OnlyWorker(s, w) && Enabled(s, e)
    ensures OnlyWorker(Apply(s, e), w)
  {
    assert IsWorker(s.threads[e.t]) <==> e.t == w;
  }

  lemma StepKeepsMutex(s: State, e: Event)
    requires MutexHeld(s) && Enabled(s, e)
    ensures MutexHeld(Apply(s, e))
  {
  }

  lemma StepKeepsFlag(s: State, e: Event, w: int)
    requires Inv(s, w) && Enabled(s, e)
    ensures FlagLaw(Apply(s, e))
  {
    assert e.Step? && InCritical(s.threads[e.t]) ==> s.mutex == HeldBy(e.t);
  }

  lemma StepKeepsResponses(s: State, e: Event, w: int)
    requires Inv(s, w) && Enabled(s, e)
    ensures var s1 := Apply(s, e); w in s1.threads && StillThere(s1, w) && InOrder(s1)
  {
    var s1 := Apply(s, e);
    if e.Step? && s1.fetched != s.fetched {
      assert s.responses == [s.responses[0]] + s1.responses;
    }
  }

  lemma StepKeepsInv(s: State, e: Event, w: int)
    requires Inv(s, w) && Enabled(s, e)
    ensures Inv(Apply(s, e), w)
  {
    StepKeepsWorker(s, e, w);
    StepKeepsMutex(s, e);
    StepKeepsFlag(s, e, w);
    StepKeepsResponses(s, e, w);
  }

  ghost predicate CanRun(s: State, es: seq<Event>)
    decreases |es|
  {
    es == [] || (Enabled(s, es[0]) && CanRun(Apply(s, es[0]), es[1..]))
  }

  ghost function Run(s: State, es: seq<Event>): State
    requires CanRun(s, es)
    decreases |es|
  {
    if es == [] then s else Run(Apply(s, es[0]), es[1..])
  }

  lemma {:induction false} RunKeepsInv(s: State, es: seq<Event>, w: int)
    requires Inv(s, w) && CanRun(s, es)
    ensures Inv(Run(s, es), w)
    decreases |es|
  {
    if es != [] {
      StepKeepsInv(s, es[0], w);
      RunKeepsInv(Apply(s, es[0]), es[1..], w);
    }
  }

  // ---- What a run guarantees ----

  /**
   * With one worker, at every point of every run: what was added is what was fetched followed by what is in the
   * list, in order; nothing is ever popped from an empty list; outside critical sections the event is set
   * exactly when the list is not empty.
   */
  lemma NothingLost(s: State, es: seq<Event>, w: int)
    requires Starts(s, {w}) && CanRun(s, es)
    ensures var r := Run(s, es);
            r.added == r.fetched + r.responses && !PopsNothing(r) && (r.mutex.Free? ==> (r.flag <==> r.responses != []))
  {
    RunKeepsInv(s, es, w);
    var r := Run(s, es);
    forall t | t in r.threads && r.threads[t].Popping?
      ensures t == w
    {
      assert IsWorker(r.threads[t]);
    }
  }

  // ---- What is handed in arrives ----

  /** A response that thread `t` has been called with and has not put into the list yet. */
  ghost function Pending(s: State, t: int): seq<int> {
    if t !in s.threads then []
    else
      match s.threads[t]
      case Adding(response) => [response]
      case Inside(response) => [response]
      case _ => []
  }

  /** The response that an event hands in, if it is a call of thread `t`. */
  ghost function Called(e: Event, t: int): seq<int> {
    if e.Call? && e.t == t then [e.response] else []
  }

  /** The responses of the calls of thread `t`. */
  ghost function Calls(es: seq<Event>, t: int): seq<int>
    decreases |es|
  {
    if es == [] then []
    else Called(es[0], t) + Calls(es[1..], t)
  }

  /** All responses handed in. */
  ghost function HandedIn(es: seq<Event>): multiset<int>
    decreases |es|
  {
    if es == [] then multiset{}
    else multiset(Called(es[0], es[0].t)) + HandedIn(es[1..])
  }

  /** What a step of thread `t` puts into the list, as one sees it entering. */
  ghost function Grown(s: State, e: Event, t: int): seq<int>
    requires Enabled(s, e)
  {
    var added := Apply(s, e).added;
    if e.t == t && |added| > |s.added| then added[|s.added|..] else []
  }

  ghost function Entered(s: State, es: seq<Event>, t: int): seq<int>
    requires CanRun(s, es)
    decreases |es|
  {
    if es == [] then [] else Grown(s, es[0], t) + Entered(Apply(s, es[0]), es[1..], t)
  }

  lemma OwnStepEnters(s: State, e: Event)
    requires Enabled(s, e)
    ensures var s1 := Apply(s, e);
            s1.added == s.added + Grown(s, e, e.t) && Grown(s, e, e.t) + Pending(s1, e.t) == Pending(s, e.t) + Called(e, e.t)
  {
  }

  lemma StepEnters(s: State, e: Event, t: int)
    requires Enabled(s, e)
    ensures Grown(s, e, t) + Pending(Apply(s, e), t) == Pending(s, t) + Called(e, t)
  {
    if e.t == t {
      OwnStepEnters(s, e);
    }
  }

  lemma Regroup(a: seq<int>, b: seq<int>, c: seq<int>, p: seq<int>, q: seq<int>, r: seq<int>, d: seq<int>)
    requires a + q == p + c && b + r == q + d
    ensures (a + b) + r == p + (c + d)
  {
    assert (a + b) + r == a + (b + r);
    assert a + (q + d) == (a + q) + d;
    assert (p + c) + d == p + (c + d);
  }

  /**
   * In any run, with any number of workers, each thread's responses enter the list in the order of its calls, and all
   * have entered but the one it may still be about to add.
   */
  lemma {:induction false} CallsEnterInOrder(s: State, es: seq<Event>, t: int)
    requires CanRun(s, es)
    ensures Entered(s, es, t) + Pending(Run(s, es), t) == Pending(s, t) + Calls(es, t)
    decreases |es|
  {
    if es != [] {
      var e, s1 := es[0], Apply(s, es[0]);
      StepEnters(s, e, t);
      CallsEnterInOrder(s1, es[1..], t);
      Regroup(Grown(s, e, t), Entered(s1, es[1..], t), Called(e, t), Pending(s, t), Pending(s1, t), Pending(Run(s, es), t),
              Calls(es[1..], t));
    }
  }

  /** The threads that still have to add a given response. */
  ghost function Holders(s: State, response: int): set<int> {
    set t | t in s.threads && Pending(s, t) == [response]
  }

  lemma OthersHold(s: State, s1: State, t: int, r: int)
    requires forall u :: u in s1.threads <==> u in s.threads
    requires forall u :: u in s.threads && u != t ==> s1.threads[u] == s.threads[u]
    ensures Holders(s1, r) - {t} == Holders(s, r) - {t}
  {
  }

  lemma HoldersCount(s: State, t: int, r: int)
    requires t in s.threads
    ensures |Holders(s, r)| == |Holders(s, r) - {t}| + multiset(Pending(s, t))[r]
  {
    WithAndWithout(Holders(s, r), t);
    assert t in Holders(s, r) <==> Pending(s, t) == [r];
  }

  lemma StepTouches(s: State, e: Event, u: int)
    requires Enabled(s, e)
    ensures var s1 := Apply(s, e);
            (u in s1.threads <==> u in s.threads) && (u in s.threads && u != e.t ==> s1.threads[u] == s.threads[u])
  {
  }

  lemma CountOfSums(a: seq<int>, b: seq<int>, c: seq<int>, d: seq<int>, r: int)
    requires a + b == c + d
    ensures multiset(a)[r] + multiset(b)[r] == multiset(c)[r] + multiset(d)[r]
  {
    assert multiset(a + b) == multiset(a) + multiset(b);
    assert multiset(c + d) == multiset(c) + multiset(d);
    assert multiset(a + b) == multiset(c + d);
    assert (multiset(a) + multiset(b))[r] == multiset(a)[r] + multiset(b)[r];
  }

  lemma StepConserves(s: State, e: Event, r: int)
    requires Enabled(s, e)
    ensures var s1 := Apply(s, e);
            multiset(s1.added)[r] + |Holders(s1, r)| == multiset(s.added)[r] + |Holders(s, r)| + multiset(Called(e, e.t))[r]
  {
    var s1 := Apply(s, e);
    forall u
      ensures u in s1.threads <==> u in s.threads
      ensures u in s.threads && u != e.t ==> s1.threads[u] == s.threads[u]
    {
      StepTouches(s, e, u);
    }
    OwnStepEnters(s, e);
    CountOfSums(s.added, Grown(s, e, e.t), s1.added, [], r);
    CountOfSums(Grown(s, e, e.t), Pending(s1, e.t), Pending(s, e.t), Called(e, e.t), r);
    OthersHold(s, s1, e.t, r);
    HoldersCount(s, e.t, r);
    HoldersCount(s1, e.t, r);
  }

  lemma WithAndWithout(ts: set<int>, t: int)
    ensures |ts| == |ts - {t}| + if t in ts then 1 else 0
  {
    if t !in ts {
      assert ts - {t} == ts;
    }
  }

  lemma {:induction false} RunConserves(s: State, es: seq<Event>, r: int)
    requires CanRun(s, es)
    ensures multiset(Run(s, es).added)[r] + |Holders(Run(s, es), r)| ==
            multiset(s.added)[r] + |Holders(s, r)| + HandedIn(es)[r]
    decreases |es|
  {
    if es != [] {
      StepConserves(s, es[0], r);
      RunConserves(Apply(s, es[0]), es[1..], r);
    }
  }

  /**
   * With one worker, at every point of every run, a response has been handed in as often as it has been fetched, is in
   * the list, or is in the hands of a thread on its way in.
   */
  lemma HandedInArrives(s: State, es: seq<Event>, w: int, r: int)
    requires Starts(s, {w}) && CanRun(s, es)
    ensures var s1 := Run(s, es);
            HandedIn(es)[r] == multiset(s1.fetched)[r] + multiset(s1.responses)[r] + |Holders(s1, r)|
  {
    RunConserves(s, es, r);
    NothingLost(s, es, w);
    assert Holders(s, r) == {};
    assert multiset(Run(s, es).fetched + Run(s, es).responses) == multiset(Run(s, es).fetched) + multiset(Run(s, es).responses);
  }

  /** A worker asleep beside a response: the event is set, or the thread that is about to set it can go on. */
  lemma WaitingIsWoken(s: State, w: int)
    requires Inv(s, w) && s.threads[w].Waiting? && s.responses != []
    ensures s.flag ==> Enabled(s, Step(w))
    ensures !s.flag ==> s.mutex.HeldBy? && Enabled(s, Step(s.mutex.thread)) && Apply(s, Step(s.mutex.thread)).flag
  {
  }

  lemma {:induction false} RunAppend(s: State, es: seq<Event>, fs: seq<Event>)
    requires CanRun(s, es) && CanRun(Run(s, es), fs)
    ensures CanRun(s, es + fs) && Run(s, es + fs) == Run(Run(s, es), fs)
    decreases |es|
  {
    if es == [] {
      assert es + fs == fs;
    } else {
      RunAppend(Apply(s, es[0]), es[1..], fs);
      assert (es + fs)[1..] == es[1..] + fs;
    }
  }

  lemma OneStep(s: State, e: Event)
    requires Enabled(s, e)
    ensures CanRun(s, [e]) && Run(s, [e]) == Apply(s, e)
  {
    assert [e][1..] == [];
  }

  ghost function StepsToLeave(s: State): nat {
    if s.mutex.Free? || s.mutex.thread !in s.threads then 0 else
    match s.threads[s.mutex.thread]
    case Inside(_) => 3
    case Pushed(_) => 2
    case _ => 1
  }

  /** A plugin thread inside gives the mutex back by itself, in at most three steps. */
  lemma HolderLeaves(s: State, w: int) returns (es: seq<Event>)
    requires Inv(s, w) && s.threads[w].Waiting?
    ensures |es| <= StepsToLeave(s) && CanRun(s, es) && forall e :: e in es ==> e.Step? && s.mutex == HeldBy(e.t)
    ensures var r := Run(s, es); Inv(r, w) && r.mutex.Free? && r.threads[w].Waiting?
    ensures s.responses <= Run(s, es).responses && Run(s, es).fetched == s.fetched
    decreases StepsToLeave(s)
  {
    if s.mutex.Free? {
      return [];
    }
    var t := s.mutex.thread;
    var e := Step(t);
    assert InCritical(s.threads[t]) && t != w && !IsWorker(s.threads[t]);
    StepKeepsInv(s, e, w);
    OneStep(s, e);
    if s.threads[t].Leaving? {
      return [e];
    }
    var rest := HolderLeaves(Apply(s, e), w);
    RunAppend(s, [e], rest);
    return [e] + rest;
  }

  /** From there the worker fetches the front in four steps of its own. */
  lemma WorkerFetches(s: State, w: int)
    requires Inv(s, w) && s.threads[w].Waiting? && s.mutex.Free? && s.responses != []
    ensures var es := [Step(w), Step(w), Step(w), Step(w)];
            CanRun(s, es) && Run(s, es).fetched == s.fetched + [s.responses[0]]
  {
    var e := Step(w);
    var s1 := Apply(s, e);
    var s2 := Apply(s1, e);
    var s3 := Apply(s2, e);
    OneStep(s3, e);
    RunAppend(s2, [e], [e]);
    RunAppend(s1, [e], [e, e]);
    RunAppend(s, [e], [e, e, e]);
  }

  /**
   * No lost wake-up: wherever the others stand, a worker that waits while a response is in the list can fetch
   * it with steps of the mutex's holder and its own only.
   */
  lemma WaitingWorkerCanFetch(s: State, w: int) returns (es: seq<Event>)
    requires Inv(s, w) && s.threads[w].Waiting? && s.responses != []
    ensures |es| <= 7 && CanRun(s, es) && forall e :: e in es ==> e.Step? && (e.t == w || s.mutex == HeldBy(e.t))
    ensures Run(s, es).fetched == s.fetched + [s.responses[0]]
  {
    var first := HolderLeaves(s, w);
    WorkerFetches(Run(s, first), w);
    var second := [Step(w), Step(w), Step(w), Step(w)];
    RunAppend(s, first, second);
    es := first + second;
  }

  // ---- Why there may be only one worker ----

  lemma Go(s: State, es: seq<Event>, at: State, e: Event) returns (fs: seq<Event>, next: State)
    requires CanRun(s, es) && Run(s, es) == at && Enabled(at, e)
    ensures fs == es + [e] && CanRun(s, fs) && Run(s, fs) == next == Apply(at, e)
  {
    OneStep(at, e);
    RunAppend(s, es, [e]);
    fs, next := es + [e], Apply(at, e);
  }

  /** The players of a run: two workers and a plugin thread. */
  datatype Cast = Cast(first: int, second: int, plugin: int)

  /** Between critical sections: where the players stand, and that nobody else has moved since `s`. */
  ghost predicate Scene(s: State, c: Cast, at: State, flag: bool, responses: seq<int>, first: Pc, second: Pc) {
    && at.mutex.Free? && at.flag == flag && at.responses == responses
    && at.threads.Keys == s.threads.Keys && {c.first, c.second, c.plugin} <= s.threads.Keys
    && c.first != c.second && c.first != c.plugin && c.second != c.plugin
    && at.threads[c.first] == first && at.threads[c.second] == second && at.threads[c.plugin] == Idle
    && forall t :: t in s.threads && t !in {c.first, c.second, c.plugin} ==> at.threads[t] == s.threads[t]
  }

  lemma FirstWaits(s: State, c: Cast, es: seq<Event>) returns (fs: seq<Event>)
    requires CanRun(s, es) && Scene(s, c, Run(s, es), false, [], Fetching, Fetching)
    ensures CanRun(s, fs) && Scene(s, c, Run(s, fs), false, [], Waiting, Fetching)
  {
    var at := Run(s, es);
    fs, at := Go(s, es, at, Step(c.first));
    fs, at := Go(s, fs, at, Step(c.first));
    fs, at := Go(s, fs, at, Step(c.first));
  }

  lemma SecondWaits(s: State, c: Cast, es: seq<Event>) returns (fs: seq<Event>)
    requires CanRun(s, es) && Scene(s, c, Run(s, es), false, [], Waiting, Fetching)
    ensures CanRun(s, fs) && Scene(s, c, Run(s, fs), false, [], Waiting, Waiting)
  {
    var at := Run(s, es);
    fs, at := Go(s, es, at, Step(c.second));
    fs, at := Go(s, fs, at, Step(c.second));
    fs, at := Go(s, fs, at, Step(c.second));
  }

  lemma OneArrives(s: State, c: Cast, es: seq<Event>, response: int) returns (fs: seq<Event>)
    requires CanRun(s, es) && Scene(s, c, Run(s, es), false, [], Waiting, Waiting)
    ensures CanRun(s, fs) && Scene(s, c, Run(s, fs), true, [response], Waiting, Waiting)
  {
    var at := Run(s, es);
    fs, at := Go(s, es, at, Call(c.plugin, response));
    fs, at := Go(s, fs, at, Step(c.plugin));
    fs, at := Go(s, fs, at, Step(c.plugin));
    fs, at := Go(s, fs, at, Step(c.plugin));
    fs, at := Go(s, fs, at, Step(c.plugin));
  }

  lemma BothSeeIt(s: State, c: Cast, es: seq<Event>, response: int) returns (fs: seq<Event>)
    requires CanRun(s, es) && Scene(s, c, Run(s, es), true, [response], Waiting, Waiting)
    ensures CanRun(s, fs) && Scene(s, c, Run(s, fs), true, [response], Relocking, Relocking)
  {
    var at := Run(s, es);
    fs, at := Go(s, es, at, Step(c.first));
    fs, at := Go(s, fs, at, Step(c.second));
    fs, at := Go(s, fs, at, Step(c.first));
    fs, at := Go(s, fs, at, Step(c.second));
  }

  lemma OneTakesIt(s: State, c: Cast, es: seq<Event>, response: int) returns (fs: seq<Event>)
    requires CanRun(s, es) && Scene(s, c, Run(s, es), true, [response], Relocking, Relocking)
    ensures CanRun(s, fs) && Scene(s, c, Run(s, fs), false, [], Fetching, Relocking)
  {
    var at := Run(s, es);
    fs, at := Go(s, es, at, Step(c.first));
    fs, at := Go(s, fs, at, Step(c.first));
    fs, at := Go(s, fs, at, Step(c.first));
    fs, at := Go(s, fs, at, Step(c.first));
  }

  /**
   * With two workers the unlocked look at the list is not enough: from every start, whatever response a plugin
   * thread adds, both see it and the second to take the mutex pops from an empty list. Nobody else moves.
   */
  lemma TwoWorkersCanPopNothing(s: State, workers: set<int>, c: Cast, response: int) returns (es: seq<Event>)
    requires Starts(s, workers) && c.first in workers && c.second in workers && c.first != c.second
    requires c.plugin in s.threads && c.plugin !in workers
    ensures CanRun(s, es) && PopsNothing(Run(s, es))
    ensures forall t :: t in s.threads && t !in {c.first, c.second, c.plugin} ==>
              t in Run(s, es).threads && Run(s, es).threads[t] == s.threads[t]
  {
    assert Scene(s, c, Run(s, []), false, [], Fetching, Fetching);
    es := FirstWaits(s, c, []);
    es := SecondWaits(s, c, es);
    es := OneArrives(s, c, es, response);
    es := BothSeeIt(s, c, es, response);
    es := OneTakesIt(s, c, es, response);
    var at;
    es, at := Go(s, es, Run(s, es), Step(c.second));
    assert c.second in at.threads && at.threads[c.second].Popping?;
  }

  lemma {:induction false} WithoutWorkersNobodyPops(s: State, es: seq<Event>)
    requires CanRun(s, es) && forall t :: t in s.threads ==> !IsWorker(s.threads[t])
    ensures !PopsNothing(Run(s, es))
    decreases |es|
  {
    if es != [] {
      WithoutWorkersNobodyPops(Apply(s, es[0]), es[1..]);
    }
  }

  lemma OneOf<T>(ts: set<T>) returns (t: T)
    requires |ts| == 1
    ensures ts == {t}
  {
    t :| t in ts;
    assert |ts - {t}| == 0;
  }

  lemma TwoOf<T>(ts: set<T>) returns (t: T, u: T)
    requires |ts| >= 2
    ensures t in ts && u in ts && t != u
  {
    t :| t in ts;
    assert |ts - {t}| >= 1;
    u :| u in ts - {t};
  }

  /** No run pops from an empty list. */
  ghost predicate NeverPopsNothing(s: State) {
    forall es: seq<Event> | CanRun(s, es) :: !PopsNothing(Run(s, es))
  }

  lemma PoppedOnce(s: State, es: seq<Event>)
    requires CanRun(s, es) && PopsNothing(Run(s, es))
    ensures !NeverPopsNothing(s)
  {
    if NeverPopsNothing(s) {
      assert false;
    }
  }

  /** The exact bound: with a plugin thread about, nothing is popped from an empty list iff there is at most one worker. */
  lemma SafeIffOneWorker(s: State, workers: set<int>, plugin: int)
    requires Starts(s, workers) && plugin in s.threads && plugin !in workers
    ensures NeverPopsNothing(s) <==> |workers| <= 1
  {
    if |workers| >= 2 {
      var first, second := TwoOf(workers);
      var es := TwoWorkersCanPopNothing(s, workers, Cast(first, second, plugin), 0);
      PoppedOnce(s, es);
    } else {
      forall es | CanRun(s, es)
        ensures !PopsNothing(Run(s, es))
      {
        if |workers| == 1 {
          var w := OneOf(workers);
          NothingLost(s, es, w);
        } else {
          assert workers == {};
          WithoutWorkersNobodyPops(s, es);
        }
      }
    }
  }
}
