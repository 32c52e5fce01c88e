/** `EngineManager` and `Engine`: shared engine objects behind the two maps, each public operation one atomic step. */
module EngineManager {
  import opened Platform
  import opened EngineModel

  class Engine {
    const key: EngineKey
    var refCount: int

    constructor (key: EngineKey)
      ensures this.key == key && refCount == 0
    {
      this.key := key;
      refCount := 0;
    }
  }

  class EngineManager {
    var engines: map<EngineKey, Engine>
    var clientEngines: map<int, Engine>
    ghost var s: State  // the maps and counts as one value

    ghost predicate Valid()
      reads this, engines.Values
    {
      Inv(s) && Mirrors()
    }

    /** The objects hold what `s` says. */
    ghost predicate Mirrors()
      reads this, engines.Values
    {
      && s.engines.Keys == engines.Keys
      && s.clients.Keys == clientEngines.Keys
      && (forall k :: k in engines ==> engines[k].key == k && engines[k].refCount == s.engines[k])
      && (forall t :: t in clientEngines ==> s.clients[t] in engines && clientEngines[t] == engines[s.clients[t]])
    }

    constructor ()
      ensures Valid() && s == INITIAL && engines == map[] && clientEngines == map[]
    {
      engines, clientEngines, s := map[], map[], INITIAL;
      new;
      assert forall k :: k !in INITIAL.engines;
      RunKeepsInv([]);
    }

    /** `FindEngine` and `CreateEngineWithCheck`: the engine of `key`, a new one if there is none. */
    method FindOrCreateEngine(key: EngineKey, created: RetCode) returns (ret: RetCode, engine: Engine?)
      requires Mirrors()
      modifies this
      ensures Mirrors() && clientEngines == old(clientEngines)
      ensures ret == (if key in old(engines) then Success else created)
      ensures !ret.Success? ==> engines == old(engines)
      ensures ret.Success? ==> engine != null && engines == old(engines)[key := engine]
      ensures ret.Success? && key in old(engines) ==> engine == old(engines)[key]
      ensures ret.Success? && key !in old(engines) ==> fresh(engine) && engine.key == key && engine.refCount == 0
      ensures s == if ret.Success? && key !in old(engines) then old(s).(engines := old(s.engines)[key := 0]) else old(s)
    {
      if key in engines {
        return Success, engines[key];
      }
      if created != Success {
        return created, null;
      }
      engine := new Engine(key);
      engines := engines[key := engine];
      s := s.(engines := s.engines[key := 0]);
      return Success, engine;
    }

    /** `AddEngineReference` and `RecordClient`. */
    method AddClient(t: int, ghost key: EngineKey, engine: Engine)
      requires Mirrors() && key in engines && engines[key] == engine
      modifies this`s, this`clientEngines, engine
      ensures Mirrors() && engine.refCount == old(engine.refCount) + 1 && clientEngines == old(clientEngines)[t := engine]
      ensures s == State(old(s).engines[key := old(s).engines[key] + 1], old(s).clients[t := key])
    {
      s := State(s.engines[key := s.engines[key] + 1], s.clients[t := key]);
      engine.refCount := engine.refCount + 1;
      clientEngines := clientEngines[t := engine];
    }

    /** `StartEngine` once the algorithm's id is known to be valid. */
    method Launch(t: int, key: EngineKey, created: RetCode, prepared: RetCode) returns (ret: RetCode)
      requires Mirrors()
      modifies this, engines.Values
      ensures Mirrors() && (key in engines && key !in old(engines) ==> fresh(engines[key]))
      ensures (s, ret) == EngineModel.StartEngine(old(s), Start(t, key, true, created, prepared))
      ensures ret == if key !in old(engines) && !created.Success? then created else prepared
      ensures key !in old(engines) && !created.Success? ==> engines == old(engines)
      ensures key in old(engines) || created.Success? ==>
                && key in engines && engines == old(engines)[key := engines[key]]
                && engines[key].key == key && (key in old(engines) ==> engines[key] == old(engines)[key])
                && engines[key].refCount == (if key in old(engines) then old(engines[key].refCount) else 0) + if ret.Success? then 1 else 0
      ensures forall k :: k in old(engines) && k != key ==> engines[k].refCount == old(engines[k].refCount)
      ensures clientEngines == if ret.Success? then old(clientEngines)[t := engines[key]] else old(clientEngines)
    {
      var engine: Engine?;
      ret, engine := FindOrCreateEngine(key, created);
      if ret != Success {
        return;
      }
      if prepared != Success {
        return prepared;
      }
      AddClient(t, key, engine);
      return Success;
    }

    /**
     * `StartEngine`; the flags and codes are what the plugin list, CreateEngine and Prepare answer. A new engine stays
     * stored when Prepare refuses.
     */
    method StartEngine(t: int, key: EngineKey, validAid: bool, created: RetCode, prepared: RetCode) returns (ret: RetCode)
      requires Valid()
      modifies this, engines.Values
      ensures Valid() && (key in engines && key !in old(engines) ==> fresh(engines[key]))
      ensures (s, ret) == EngineModel.StartEngine(old(s), Start(t, key, validAid, created, prepared))
      ensures ret == if !validAid then AlgorithmIdInvalid else if key !in old(engines) && !created.Success? then created else prepared
      ensures !validAid || (key !in old(engines) && !created.Success?) ==> engines == old(engines)
      ensures validAid && (key in old(engines) || created.Success?) ==>
                && key in engines && engines == old(engines)[key := engines[key]]
                && engines[key].key == key && (key in old(engines) ==> engines[key] == old(engines)[key])
                && engines[key].refCount == (if key in old(engines) then old(engines[key].refCount) else 0) + if ret.Success? then 1 else 0
      ensures forall k :: k in old(engines) && k != key ==> engines[k].refCount == old(engines[k].refCount)
      ensures clientEngines == if ret.Success? then old(clientEngines)[t := engines[key]] else old(clientEngines)
    {
      StepKeepsInv(s, Start(t, key, validAid, created, prepared));
      if !validAid {
        return AlgorithmIdInvalid;
      }
      ret := Launch(t, key, created, prepared);
    }

    /** `StopEngine`; `released` is what Release answers, and `full` what it was told. */
    method StopEngine(t: int, released: RetCode) returns (ret: RetCode, full: bool)
      requires Valid()
      modifies this, engines.Values
      ensures Valid() && engines.Values <= old(engines.Values)
      ensures (s, ret) == EngineModel.StopEngine(old(s), t, released)
      ensures full <==> t in old(clientEngines) && old(clientEngines[t].refCount) == 1
      ensures ret == if t in old(clientEngines) then released else SaServiceException
      ensures !ret.Success? ==> engines == old(engines) && clientEngines == old(clientEngines)
      ensures ret.Success? ==>
                && clientEngines == old(clientEngines) - {t}
                && engines == if full then old(engines) - {old(clientEngines)[t].key} else old(engines)
      ensures forall k :: k in old(engines) ==>
                old(engines)[k].refCount == old(engines[k].refCount) -
                                            if ret.Success? && old(clientEngines)[t] == old(engines)[k] then 1 else 0
    {
      StepKeepsInv(s, Stop(t, released));
      ghost var next := Apply(s, Stop(t, released));
      if t !in clientEngines {
        return SaServiceException, false;
      }
      var engine := clientEngines[t];
      full := engine.refCount == 1;
      if released != Success {
        return released, full;
      }
      engine.refCount := engine.refCount - 1;
      if engine.refCount == 0 {
        engines := engines - {engine.key};
      }
      clientEngines := clientEngines - {t};
      s := next;
      return Success, full;
    }
  }
}
