/**
 * The engine manager as a function of its two maps: engines under their key with a reference count, and the engine
 * each transaction uses. What the plugin manager and the plugins answer is part of each operation.
 */
module EngineModel {
  import opened Platform

  datatype EngineKey = EngineKey(aid: string, version: int)

  datatype State = State(engines: map<EngineKey, int>, clients: map<int, EngineKey>)

  const INITIAL := State(map[], map[])

  /** `created`, `prepared` and `released` are the answers of CreateEngine, Prepare and Release, if they are asked. */
  datatype Event =
    | Start(t: int, key: EngineKey, validAid: bool, created: RetCode, prepared: RetCode)
    | Stop(t: int, released: RetCode)

  // ---- The operations ----

  ghost function StartEngine(s: State, e: Event): (State, RetCode)
    requires e.Start?
  {
    if !e.validAid then
      (s, AlgorithmIdInvalid)
    else if e.key !in s.engines && e.created != Success then
      (s, e.created)
    else
      var s1 := if e.key in s.engines then s else s.(engines := s.engines[e.key := 0]);
      if e.prepared != Success then
        (s1, e.prepared)
      else
        (State(s1.engines[e.key := s1.engines[e.key] + 1], s1.clients[e.t := e.key]), Success)
  }

  /** Whether Release is told to unload the plugin fully. */
  ghost predicate FullUnload(s: State, t: int)
    requires t in s.clients && s.clients[t] in s.engines
  {
    s.engines[s.clients[t]] == 1
  }

  ghost function StopEngine(s: State, t: int, released: RetCode): (State, RetCode) {
    if t !in s.clients || s.clients[t] !in s.engines then
      (s, SaServiceException)
    else if released != Success then
      (s, released)
    else
      var key := s.clients[t];
      var refs := s.engines[key] - 1;
      (State(if refs == 0 then s.engines - {key} else s.engines[key := refs], s.clients - {t}), Success)
  }

  ghost function Apply(s: State, e: Event): State {
    match e
    case Start(_, _, _, _, _) => StartEngine(s, e).0
    case Stop(t, released) => StopEngine(s, t, released).0
  }

  // ---- The invariant ----

  /** The transactions that use the engine of `key`. */
  ghost function Users(s: State, key: EngineKey): set<int> {
    set t | t in s.clients && s.clients[t] == key
  }

  ghost function Refs(s: State, key: EngineKey): int {
    if key in s.engines then s.engines[key] else 0
  }

  /** References nobody will ever return. */
  ghost function Leaked(s: State, key: EngineKey): int {
    Refs(s, key) - |Users(s, key)|
  }

  /** Every transaction's engine is stored, and no engine has fewer references than transactions. */
  ghost predicate Inv(s: State) {
    && (forall t :: t in s.clients ==> s.clients[t] in s.engines)
    && (forall key :: key in s.engines ==> s.engines[key] >= |Users(s, key)|)
  }

  /** A successful start of a transaction that already uses the engine of `key`: its old reference is lost. */
  ghost predicate Displaces(s: State, e: Event, key: EngineKey) {
    e.Start? && StartEngine(s, e).1.Success? && e.t in s.clients && s.clients[e.t] == key
  }

  lemma UsersAfterRecord(s: State, s': State, t: int, key: EngineKey, k: EngineKey)
    requires s'.clients == s.clients[t := key]
    ensures Users(s', k) == if k == key then Users(s, k) + {t} else Users(s, k) - {t}
  {
  }

  lemma UsersAfterUnRecord(s: State, s': State, t: int, k: EngineKey)
    requires s'.clients == s.clients - {t}
    ensures Users(s', k) == Users(s, k) - {t}
  {
  }

  lemma RecordCounts(s: State, s': State, t: int, used: EngineKey, key: EngineKey)
    requires s'.clients == s.clients[t := used]
    ensures |Users(s', key)| == |Users(s, key)| + (if key == used then 1 else 0) - (if t in Users(s, key) then 1 else 0)
  {
    UsersAfterRecord(s, s', t, used, key);
    var users := Users(s, key);
    if t in users {
      assert |users - {t}| == |users| - 1;
      assert key == used ==> users + {t} == users;
    } else {
      assert users - {t} == users;
    }
  }

  lemma StartLeaks(s: State, e: Event, key: EngineKey)
    requires Inv(s) && e.Start?
    ensures Leaked(Apply(s, e), key) == Leaked(s, key) + if Displaces(s, e, key) then 1 else 0
  {
    var s' := Apply(s, e);
    if StartEngine(s, e).1.Success? {
      RecordCounts(s, s', e.t, e.key, key);
      assert Refs(s', key) == Refs(s, key) + if key == e.key then 1 else 0;
    } else {
      assert Users(s', key) == Users(s, key);
      assert Refs(s', key) == Refs(s, key);
    }
  }

  lemma StopLeaks(s: State, t: int, released: RetCode, key: EngineKey)
    requires Inv(s)
    ensures Leaked(StopEngine(s, t, released).0, key) == Leaked(s, key)
  {
    var s' := StopEngine(s, t, released).0;
    if s' != s {
      UsersAfterUnRecord(s, s', t, key);
      if t in Users(s, key) {
        assert |Users(s, key) - {t}| == |Users(s, key)| - 1;
      }
    }
  }

  /** How a step changes the lost references of one engine. */
  lemma StepLeaks(s: State, e: Event, key: EngineKey)
    requires Inv(s)
    ensures Leaked(Apply(s, e), key) == Leaked(s, key) + if Displaces(s, e, key) then 1 else 0
  {
    match e
    case Start(_, _, _, _, _) => StartLeaks(s, e, key);
    case Stop(t, released) => StopLeaks(s, t, released, key);
  }

  /** An engine whose last reference goes has no other user. */
  lemma LastReference(s: State, t: int)
    requires Inv(s) && t in s.clients && FullUnload(s, t)
    ensures Users(s, s.clients[t]) == {t}
  {
    var users := Users(s, s.clients[t]);
    assert t in users;
    assert |users - {t}| == |users| - 1;
  }

  lemma UnusedKey(s: State, key: EngineKey)
    requires Inv(s) && key !in s.engines
    ensures Users(s, key) == {}
  {
    assert forall t | t in s.clients :: s.clients[t] != key;
  }

  /** Every step keeps the invariant. */
  lemma StepKeepsInv(s: State, e: Event)
    requires Inv(s)
    ensures Inv(Apply(s, e))
  {
    var s' := Apply(s, e);
    forall key | key in s'.engines
      ensures s'.engines[key] >= |Users(s', key)|
    {
      StepLeaks(s, e, key);
      if key !in s.engines {
        UnusedKey(s, key);
      }
    }
    if e.Stop? && e.t in s.clients && FullUnload(s, e.t) {
      LastReference(s, e.t);
      assert forall t :: t in s'.clients ==> t !in Users(s, s.clients[e.t]) || s' == s;
    }
  }

  /** An engine leaves only with its last user, and nobody is left using it. */
  lemma EngineLeavesUnused(s: State, e: Event, key: EngineKey)
    requires Inv(s) && key in s.engines && key !in Apply(s, e).engines
    ensures e.Stop? && Users(s, key) == {e.t} && Users(Apply(s, e), key) == {}
  {
    LastReference(s, e.t);
    StepKeepsInv(s, e);
    UnusedKey(Apply(s, e), key);
  }

  // ---- Whole runs ----

  ghost function After(run: seq<Event>): State {
    if run == [] then INITIAL else Apply(After(run[..|run| - 1]), run[|run| - 1])
  }

  /** How often the run restarted a transaction that was using the engine of `key`. */
  ghost function Restarts(run: seq<Event>, key: EngineKey): nat {
    if run == [] then 0
    else
      var before := run[..|run| - 1];
      Restarts(before, key) + if Displaces(After(before), run[|run| - 1], key) then 1 else 0
  }

  lemma {:induction false} RunKeepsInv(run: seq<Event>)
    ensures Inv(After(run))
  {
    if run != [] {
      RunKeepsInv(run[..|run| - 1]);
      StepKeepsInv(After(run[..|run| - 1]), run[|run| - 1]);
    } else {
      assert Users(INITIAL, EngineKey("", 0)) == {};
    }
  }

  /**
   * Conservation of references over every run: an engine's count is the number of transactions using it plus the
   * number of restarts that took one of its users away without returning the reference.
   */
  lemma {:induction false} ReferencesAreConserved(run: seq<Event>, key: EngineKey)
    ensures Refs(After(run), key) == |Users(After(run), key)| + Restarts(run, key)
  {
    if run == [] {
      assert Users(INITIAL, key) == {};
    } else {
      var before := run[..|run| - 1];
      RunKeepsInv(before);
      ReferencesAreConserved(before, key);
      StepLeaks(After(before), run[|run| - 1], key);
    }
  }

  /** Release hears `isFullUnload` only from the engine's last user; without restarts, always from the last user. */
  lemma FullUnloadIsLastUser(run: seq<Event>, t: int)
    requires var s := After(run); t in s.clients && s.clients[t] in s.engines
    ensures var s := After(run);
            FullUnload(s, t) <==> Users(s, s.clients[t]) == {t} && Restarts(run, s.clients[t]) == 0
  {
    var s := After(run);
    RunKeepsInv(run);
    ReferencesAreConserved(run, s.clients[t]);
    if FullUnload(s, t) {
      LastReference(s, t);
    }
  }

  ghost function Answer(s: State, e: Event): RetCode {
    match e
    case Start(_, _, _, _, _) => StartEngine(s, e).1
    case Stop(t, released) => StopEngine(s, t, released).1
  }

  /** An engine leaves exactly at a stop that succeeds and whose Release was told to unload fully. */
  lemma EngineLeavesIff(run: seq<Event>, e: Event, key: EngineKey)
    requires key in After(run).engines
    ensures var s := After(run);
            key !in After(run + [e]).engines <==>
              e.Stop? && e.released == Success && e.t in s.clients && s.clients[e.t] == key && s.engines[key] == 1
    ensures var s := After(run);
            key !in After(run + [e]).engines ==>
              Users(s, key) == {e.t} && Restarts(run, key) == 0 && Users(After(run + [e]), key) == {}
  {
    var s := After(run);
    RunKeepsInv(run);
    assert (run + [e])[..|run|] == run;
    if key !in After(run + [e]).engines {
      FullUnloadIsLastUser(run, e.t);
      EngineLeavesUnused(s, e, key);
    }
  }

  /** The engine of the last start of `t` that succeeded, unless a stop has succeeded since. */
  ghost function LastStarted(run: seq<Event>, t: int): Option<EngineKey> {
    if run == [] then None
    else
      var before, e := run[..|run| - 1], run[|run| - 1];
      if e.t != t || !Answer(After(before), e).Success? then LastStarted(before, t)
      else if e.Start? then Some(e.key)
      else None
  }

  /** Over every run a transaction uses the engine it was last started on, until it is stopped. */
  lemma {:induction false} ClientsFollowStarts(run: seq<Event>, t: int)
    ensures var s := After(run);
            LastStarted(run, t) == if t in s.clients then Some(s.clients[t]) else None
  {
    if run != [] {
      ClientsFollowStarts(run[..|run| - 1], t);
    }
  }

  /** After one restart of a user, the engine stays loaded for ever. */
  lemma {:induction false} RestartedEngineStays(run: seq<Event>, more: seq<Event>, key: EngineKey)
    requires Restarts(run, key) > 0
    ensures key in After(run + more).engines
  {
    RestartsGrow(run, more, key);
    ReferencesAreConserved(run + more, key);
  }

  lemma {:induction false} RestartsGrow(run: seq<Event>, more: seq<Event>, key: EngineKey)
    ensures Restarts(run + more, key) >= Restarts(run, key)
  {
    if more == [] {
      assert run + more == run;
    } else {
      RestartsGrow(run, more[..|more| - 1], key);
      assert (run + more)[..|run + more| - 1] == run + more[..|more| - 1];
    }
  }
}
