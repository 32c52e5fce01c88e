/**
 * The writer-preferring reader/writer lock as a transition system: any number of threads, every interleaving of the
 * critical sections under the lock's mutex, sleeping and notified threads of both condition variables, and spurious
 * wake-ups.
 */
module RwLockModel {
  import opened Platform

  type Thread = nat

  /** The lock's three fields, and where every thread that is not idle stands. */
  datatype State = State(
    readCnt: int, writeCnt: int, writeFlag: bool,
    readAsleep: set<Thread>, readNotified: set<Thread>, reading: set<Thread>,
    writeAsleep: set<Thread>, writeNotified: set<Thread>, writing: set<Thread>)
  {
    ghost function Waiting(): set<Thread> {
      readAsleep + readNotified + writeAsleep + writeNotified
    }

    ghost function Busy(): set<Thread> {
      readAsleep + readNotified + reading + (writeAsleep + writeNotified + writing)
    }

    ghost predicate Free() {
      readCnt == 0 && !writeFlag
    }
  }

  const INITIAL := State(0, 0, false, {}, {}, {}, {}, {}, {})

  /** One critical section, or a spurious wake-up. `woken` is the sleeper that `notify_one` picks, if any sleeps. */
  datatype Action =
    | LockRead(t: Thread)
    | WakeRead(t: Thread)
    | LockWrite(t: Thread)
    | WakeWrite(t: Thread)
    | UnlockRead(t: Thread, woken: Option<Thread>)
    | UnlockWrite(t: Thread, woken: Option<Thread>)
    | Spurious(t: Thread)

  ghost predicate NotifiesOne(s: State, woken: Option<Thread>) {
    match woken
    case None => s.writeAsleep == {}
    case Some(w) => w in s.writeAsleep
  }

  ghost predicate Enabled(s: State, a: Action) {
    match a
    case LockRead(t) => t !in s.Busy()
    case WakeRead(t) => t in s.readNotified
    case LockWrite(t) => t !in s.Busy()
    case WakeWrite(t) => t in s.writeNotified
    case UnlockRead(t, woken) =>
      t in s.reading && if s.readCnt == 1 && s.writeCnt > 0 then NotifiesOne(s, woken) else woken == None
    case UnlockWrite(t, woken) =>
      t in s.writing && if s.writeCnt > 1 then NotifiesOne(s, woken) else woken == None
    case Spurious(t) => t in s.readAsleep || t in s.writeAsleep
  }

  // ---- The steps ----

  /** A reader evaluates its wait predicate. */
  ghost function ReadOrSleep(s: State, t: Thread): State {
    if s.writeCnt == 0 then s.(readCnt := s.readCnt + 1, reading := s.reading + {t})
    else s.(readAsleep := s.readAsleep + {t})
  }

  /** A writer that has announced itself evaluates its wait predicate. */
  ghost function WriteOrSleep(s: State, t: Thread): State {
    if s.Free() then s.(writeFlag := true, writing := s.writing + {t})
    else s.(writeAsleep := s.writeAsleep + {t})
  }

  ghost function NotifyWriter(s: State, woken: Option<Thread>): State {
    match woken
    case None => s
    case Some(w) => s.(writeAsleep := s.writeAsleep - {w}, writeNotified := s.writeNotified + {w})
  }

  ghost function NotifyReaders(s: State): State {
    s.(readAsleep := {}, readNotified := s.readNotified + s.readAsleep)
  }

  ghost function Apply(s: State, a: Action): State
    requires Enabled(s, a)
  {
    match a
    case LockRead(t) => ReadOrSleep(s, t)
    case WakeRead(t) => ReadOrSleep(s.(readNotified := s.readNotified - {t}), t)
    case LockWrite(t) => WriteOrSleep(s.(writeCnt := s.writeCnt + 1), t)
    case WakeWrite(t) => WriteOrSleep(s.(writeNotified := s.writeNotified - {t}), t)
    case UnlockRead(t, woken) =>
      NotifyWriter(s.(readCnt := s.readCnt - 1, reading := s.reading - {t}), woken)
    case UnlockWrite(t, woken) =>
      var s1 := s.(writeCnt := s.writeCnt - 1, writing := s.writing - {t});
      (if s1.writeCnt == 0 then NotifyReaders(s1) else NotifyWriter(s1, woken)).(writeFlag := false)
    case Spurious(t) =>
      if t in s.readAsleep then s.(readAsleep := s.readAsleep - {t}, readNotified := s.readNotified + {t})
      else s.(writeAsleep := s.writeAsleep - {t}, writeNotified := s.writeNotified + {t})
  }

  // ---- The invariant ----

  /** No thread is in two places. */
  ghost predicate Apart(s: State) {
    s.readAsleep !! s.readNotified !! s.reading !! s.writeAsleep !! s.writeNotified !! s.writing
  }

  /** The counters count: readers inside, and writers announced and not yet finished. */
  ghost predicate Counts(s: State) {
    && s.readCnt == |s.reading|
    && s.writeCnt == |s.writeAsleep| + |s.writeNotified| + |s.writing|
    && (s.writeFlag <==> s.writing != {})
  }

  ghost predicate Exclusion(s: State) {
    && |s.writing| <= 1
    && (s.writing != {} ==> s.reading == {})
  }

  /** No wake-up is lost: a free lock has a writer on its way if one sleeps, and without writers no reader sleeps. */
  ghost predicate NoLostWakeUp(s: State) {
    && (s.Free() && s.writeAsleep != {} ==> s.writeNotified != {})
    && (s.writeCnt == 0 ==> s.readAsleep == {})
  }

  ghost predicate Inv(s: State) {
    Apart(s) && Counts(s) && Exclusion(s) && NoLostWakeUp(s)
  }

  lemma ReadOrSleepKeeps(s: State, t: Thread)
    requires Inv(s) && t !in s.Busy()
    ensures Inv(ReadOrSleep(s, t))
  {
    if s.writeCnt == 0 {
      assert s.writing == {};
    }
  }

  lemma WriteOrSleepKeeps(s: State, t: Thread)
    requires Apart(s) && Exclusion(s) && t !in s.Busy() && s.writeCnt > 0
    requires s.readCnt == |s.reading| && (s.writeFlag <==> s.writing != {})
    requires s.writeCnt == |s.writeAsleep| + |s.writeNotified| + |s.writing| + 1
    ensures Inv(WriteOrSleep(s, t))
  {
    if s.Free() {
      assert s.reading == {} && s.writing == {};
      assert |{t}| == 1;
    } else {
      assert |s.writeAsleep + {t}| == |s.writeAsleep| + 1;
    }
  }

  lemma UnlockReadKeeps(s: State, t: Thread, woken: Option<Thread>)
    requires Inv(s) && Enabled(s, UnlockRead(t, woken))
    ensures Inv(Apply(s, UnlockRead(t, woken)))
  {
    assert |s.reading - {t}| == |s.reading| - 1;
    if s.writeCnt == 0 {
      assert s.writeAsleep == {};
    }
  }

  lemma UnlockWriteKeeps(s: State, t: Thread, woken: Option<Thread>)
    requires Inv(s) && Enabled(s, UnlockWrite(t, woken))
    ensures Inv(Apply(s, UnlockWrite(t, woken)))
  {
    assert s.writing - {t} == {} by {
      assert |s.writing - {t}| == 0;
    }
    if s.writeCnt == 1 {
      assert s.writeAsleep == {};
    }
  }

  lemma NotifyWriterKeepsApart(s: State, t: Thread)
    requires Apart(s) && t in s.writeAsleep
    ensures var s' := NotifyWriter(s, Some(t));
            && Apart(s') && t in s'.writeNotified
            && |s'.writeAsleep| + |s'.writeNotified| == |s.writeAsleep| + |s.writeNotified|
  {
  }

  lemma SpuriousKeeps(s: State, t: Thread)
    requires Inv(s) && Enabled(s, Spurious(t))
    ensures Inv(Apply(s, Spurious(t)))
  {
    if t in s.readAsleep {
      SpuriousReadKeeps(s, t);
    } else {
      NotifyWriterKeepsApart(s, t);
    }
  }

  lemma SpuriousReadKeeps(s: State, t: Thread)
    requires Inv(s) && t in s.readAsleep
    ensures Inv(s.(readAsleep := s.readAsleep - {t}, readNotified := s.readNotified + {t}))
  {
  }

  lemma WakeReadKeeps(s: State, t: Thread)
    requires Inv(s) && t in s.readNotified
    ensures Inv(Apply(s, WakeRead(t)))
  {
    ReadOrSleepKeeps(s.(readNotified := s.readNotified - {t}), t);
  }

  lemma WakeWriteKeeps(s: State, t: Thread)
    requires Inv(s) && t in s.writeNotified
    ensures Inv(Apply(s, WakeWrite(t)))
  {
    assert |s.writeNotified - {t}| == |s.writeNotified| - 1;
    WriteOrSleepKeeps(s.(writeNotified := s.writeNotified - {t}), t);
  }

  /** Every step keeps the invariant. */
  lemma StepKeepsInv(s: State, a: Action)
    requires Inv(s) && Enabled(s, a)
    ensures Inv(Apply(s, a))
  {
    match a
    case LockRead(t) => ReadOrSleepKeeps(s, t);
    case WakeRead(t) => WakeReadKeeps(s, t);
    case LockWrite(t) => WriteOrSleepKeeps(s.(writeCnt := s.writeCnt + 1), t);
    case WakeWrite(t) => WakeWriteKeeps(s, t);
    case UnlockRead(t, woken) => UnlockReadKeeps(s, t, woken);
    case UnlockWrite(t, woken) => UnlockWriteKeeps(s, t, woken);
    case Spurious(t) => SpuriousKeeps(s, t);
  }

  // ---- Whole runs ----

  ghost predicate Legal(s: State, run: seq<Action>)
    decreases |run|
  {
    run == [] || (Enabled(s, run[0]) && Legal(Apply(s, run[0]), run[1..]))
  }

  ghost function After(s: State, run: seq<Action>): State
    requires Legal(s, run)
    decreases |run|
  {
    if run == [] then s else After(Apply(s, run[0]), run[1..])
  }

  /** In every state any run reaches: exclusion, exact counters, no lost wake-up. */
  lemma {:induction false} RunKeepsInv(s: State, run: seq<Action>)
    requires Inv(s) && Legal(s, run)
    ensures Inv(After(s, run))
    decreases |run|
  {
    if run != [] {
      StepKeepsInv(s, run[0]);
      RunKeepsInv(Apply(s, run[0]), run[1..]);
    }
  }

  lemma ReachableIsSafe(run: seq<Action>)
    requires Legal(INITIAL, run)
    ensures var s := After(INITIAL, run);
            && (|s.reading| == 0 || |s.writing| == 0) && |s.writing| <= 1
            && (s.Free() && s.writeAsleep != {} ==> s.writeNotified != {})
            && (s.writeCnt == 0 ==> s.readAsleep == {})
  {
    RunKeepsInv(INITIAL, run);
  }

  /** Writer preference: a step lets a reader in only when no writer waits or writes. */
  lemma ReadersYield(s: State, a: Action, r: Thread)
    requires Inv(s) && Enabled(s, a)
    requires r !in s.reading && r in Apply(s, a).reading
    ensures s.writeAsleep == s.writeNotified == s.writing == {}
  {
    assert s.writeCnt == 0;
  }

  // ---- Draining ----

  /** A step of a thread already inside: no new request, no spurious wake-up. */
  ghost predicate Quiet(a: Action) {
    !a.LockRead? && !a.LockWrite? && !a.Spurious?
  }

  ghost predicate AllQuiet(run: seq<Action>) {
    forall i :: 0 <= i < |run| ==> Quiet(run[i])
  }

  /** Threads never all sleep. */
  lemma SleepersHaveCompany(s: State)
    requires Inv(s)
    requires s.readNotified == {} && s.writeNotified == {} && s.reading == {} && s.writing == {}
    ensures s.Busy() == {}
  {
  }

  ghost function Pick(s: State, notify: bool): (woken: Option<Thread>)
    ensures if notify then NotifiesOne(s, woken) else woken == None
  {
    if notify && s.writeAsleep != {} then var w :| w in s.writeAsleep; Some(w) else None
  }

  /** The lock never hangs: while any thread is busy, some thread can make a quiet step. */
  lemma BusyCanStep(s: State) returns (a: Action)
    requires Inv(s) && s.Busy() != {}
    ensures Enabled(s, a) && Quiet(a)
  {
    SleepersHaveCompany'(s);
    if t :| t in s.readNotified {
      a := WakeRead(t);
    } else if t :| t in s.writeNotified {
      a := WakeWrite(t);
    } else if t :| t in s.reading {
      a := UnlockRead(t, Pick(s, s.readCnt == 1 && s.writeCnt > 0));
    } else {
      var t :| t in s.writing;
      a := UnlockWrite(t, Pick(s, s.writeCnt > 1));
    }
  }

  lemma SleepersHaveCompany'(s: State)
    requires Inv(s) && s.Busy() != {}
    ensures s.readNotified != {} || s.writeNotified != {} || s.reading != {} || s.writing != {}
  {
    if s.readNotified == {} && s.writeNotified == {} && s.reading == {} && s.writing == {} {
      SleepersHaveCompany(s);
    }
  }

  ghost function Headcount(s: State): nat {
    |s.readAsleep| + |s.readNotified| + |s.reading| + |s.writeAsleep| + |s.writeNotified| + |s.writing|
  }

  ghost function Notified(s: State): nat {
    |s.readNotified| + |s.writeNotified|
  }

  lemma Leaves(a: set<Thread>, b: set<Thread>, t: Thread)
    requires t in a && b == a - {t}
    ensures |b| == |a| - 1
  {
  }

  /** A thread that evaluates its wait predicate is inside afterwards. */
  lemma EntersOrSleeps(s: State, t: Thread)
    requires t !in s.Busy()
    ensures Headcount(ReadOrSleep(s, t)) == Headcount(s) + 1 && Notified(ReadOrSleep(s, t)) == Notified(s)
    ensures Headcount(WriteOrSleep(s, t)) == Headcount(s) + 1 && Notified(WriteOrSleep(s, t)) == Notified(s)
  {
    Leaves(s.reading + {t}, s.reading, t);
    Leaves(s.readAsleep + {t}, s.readAsleep, t);
    Leaves(s.writing + {t}, s.writing, t);
    Leaves(s.writeAsleep + {t}, s.writeAsleep, t);
  }

  lemma WakeReadShrinks(s: State, t: Thread)
    requires Apart(s) && t in s.readNotified
    ensures var s' := Apply(s, WakeRead(t)); Headcount(s') == Headcount(s) && Notified(s') == Notified(s) - 1
  {
    Leaves(s.readNotified, s.readNotified - {t}, t);
    EntersOrSleeps(s.(readNotified := s.readNotified - {t}), t);
  }

  lemma WakeWriteShrinks(s: State, t: Thread)
    requires Apart(s) && t in s.writeNotified
    ensures var s' := Apply(s, WakeWrite(t)); Headcount(s') == Headcount(s) && Notified(s') == Notified(s) - 1
  {
    Leaves(s.writeNotified, s.writeNotified - {t}, t);
    EntersOrSleeps(s.(writeNotified := s.writeNotified - {t}), t);
  }

  /** A notified thread that evaluates its predicate uses up its notification and stays inside. */
  lemma WakeShrinks(s: State, a: Action)
    requires Inv(s) && Enabled(s, a) && (a.WakeRead? || a.WakeWrite?)
    ensures Headcount(Apply(s, a)) == Headcount(s)
    ensures Notified(Apply(s, a)) == Notified(s) - 1
  {
    if a.WakeRead? {
      WakeReadShrinks(s, a.t);
    } else {
      WakeWriteShrinks(s, a.t);
    }
  }

  lemma NotifyWriterKeepsHeads(s: State, woken: Option<Thread>)
    requires Apart(s) && (woken.Some? ==> woken.value in s.writeAsleep)
    ensures Headcount(NotifyWriter(s, woken)) == Headcount(s)
  {
    if woken.Some? {
      Leaves(s.writeAsleep, s.writeAsleep - {woken.value}, woken.value);
    }
  }

  /** A thread that unlocks is gone. */
  lemma UnlockShrinks(s: State, a: Action)
    requires Inv(s) && Enabled(s, a) && (a.UnlockRead? || a.UnlockWrite?)
    ensures Headcount(Apply(s, a)) == Headcount(s) - 1
  {
    if a.UnlockRead? {
      Leaves(s.reading, s.reading - {a.t}, a.t);
      NotifyWriterKeepsHeads(s.(readCnt := s.readCnt - 1, reading := s.reading - {a.t}), a.woken);
    } else {
      Leaves(s.writing, s.writing - {a.t}, a.t);
      var s1 := s.(writeCnt := s.writeCnt - 1, writing := s.writing - {a.t});
      NotifyWriterKeepsHeads(s1, a.woken);
      assert |s.readNotified + s.readAsleep| == |s.readNotified| + |s.readAsleep|;
    }
  }

  /** Steps left to a lock with at most `n` threads inside. */
  ghost function Budget(heads: nat, notified: nat, n: nat): nat {
    heads * (n + 1) + notified
  }

  lemma BudgetShrinks(heads: nat, notified: nat, heads': nat, notified': nat, n: nat)
    requires notified' <= heads' <= n
    requires heads' == heads - 1 || (heads' == heads && notified' == notified - 1)
    ensures Budget(heads', notified', n) < Budget(heads, notified, n)
  {
    if heads' == heads - 1 {
      assert heads * (n + 1) == (heads - 1) * (n + 1) + (n + 1);
    }
  }

  lemma QuietStepShrinks(s: State, a: Action, n: nat)
    requires Inv(s) && Enabled(s, a) && Quiet(a) && Headcount(s) <= n
    ensures var s' := Apply(s, a);
            Headcount(s') <= n && Budget(Headcount(s'), Notified(s'), n) < Budget(Headcount(s), Notified(s), n)
  {
    if a.WakeRead? || a.WakeWrite? {
      WakeShrinks(s, a);
    } else {
      UnlockShrinks(s, a);
    }
    var s' := Apply(s, a);
    BudgetShrinks(Headcount(s), Notified(s), Headcount(s'), Notified(s'), n);
  }

  lemma {:induction false} QuietRunsAreShort(s: State, run: seq<Action>, n: nat)
    requires Inv(s) && Legal(s, run) && AllQuiet(run) && Headcount(s) <= n
    ensures |run| <= Budget(Headcount(s), Notified(s), n)
    decreases |run|
  {
    if run != [] {
      StepKeepsInv(s, run[0]);
      QuietStepShrinks(s, run[0], n);
      QuietRunsAreShort(Apply(s, run[0]), run[1..], n);
    }
  }

  /**
   * Everyone gets in and out: once no thread joins and none wakes spuriously, a run has at most `n * (n + 2)` steps
   * for `n` threads inside, and it can only end with the lock empty.
   */
  lemma EveryoneFinishes(s: State, run: seq<Action>)
    requires Inv(s) && Legal(s, run) && AllQuiet(run)
    ensures |run| <= Headcount(s) * (Headcount(s) + 2)
    ensures (forall a :: Quiet(a) ==> !Enabled(After(s, run), a)) ==> After(s, run).Busy() == {}
  {
    BudgetBound(Headcount(s), Notified(s));
    QuietRunsAreShort(s, run, Headcount(s));
    RunKeepsInv(s, run);
    if After(s, run).Busy() != {} {
      var a := BusyCanStep(After(s, run));
    }
  }

  lemma BudgetBound(n: nat, notified: nat)
    requires notified <= n
    ensures Budget(n, notified, n) <= n * (n + 2)
  {
  }
}
