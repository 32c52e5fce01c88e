/** `SaServerAdapter` and the adapter table behind the server's entry points. */
module ServerAdapter {
  import opened Platform
  import opened TransactionIds
  import opened EngineManager
  import E = EngineModel
  import M = ServerModel

  /** The element an iterator over a set stands on. */
  method AnyOf<T(==)>(ts: set<T>) returns (t: T)
    requires ts != {}
    ensures t in ts
  {
    t :| t in ts;
  }

  lemma TakenAway<K, V>(m: map<K, V>, a: set<K>, b: set<K>)
    ensures m - a - b == m - (a + b)
  {
  }

  class SaServerAdapter {
    const adapterId: int
    var transactionIds: set<int>

    constructor (adapterId: int)
      ensures this.adapterId == adapterId && transactionIds == {}
    {
      this.adapterId := adapterId;
      transactionIds := {};
    }

    method LoadAlgorithm(em: EngineManager, t: int, key: E.EngineKey, validAid: bool, created: RetCode, prepared: RetCode)
      returns (ret: RetCode)
      requires em.Valid()
      modifies this`transactionIds, em, em.engines.Values
      ensures em.Valid()
      ensures (em.s, ret) == E.StartEngine(old(em.s), E.Start(t, key, validAid, created, prepared))
      ensures ret.Success? <==> validAid && (key in old(em.engines) || created.Success?) && prepared.Success?
      ensures ret.Success? ==> key in em.engines && em.engines[key].key == key
      ensures em.clientEngines == if ret.Success? then old(em.clientEngines)[t := em.engines[key]] else old(em.clientEngines)
      ensures transactionIds == old(transactionIds) + if ret.Success? then {t} else {}
    {
      ret := em.StartEngine(t, key, validAid, created, prepared);
      if ret != Success {
        return;
      }
      transactionIds := transactionIds + {t};
    }

    method UnloadAlgorithm(em: EngineManager, t: int, released: RetCode) returns (ret: RetCode)
      requires em.Valid()
      modifies this`transactionIds, em, em.engines.Values
      ensures em.Valid()
      ensures (em.s, ret) == E.StopEngine(old(em.s), t, released)
      ensures ret == if t in old(em.clientEngines) then released else SaServiceException
      ensures ret.Success? ==> em.clientEngines == old(em.clientEngines) - {t} && transactionIds == old(transactionIds) - {t}
      ensures !ret.Success? ==> em.clientEngines == old(em.clientEngines) && transactionIds == old(transactionIds) && em.s == old(em.s)
    {
      var code, _ := em.StopEngine(t, released);
      ret := code;
      if ret != Success {
        return;
      }
      transactionIds := transactionIds - {t};
    }

    /** Stops every transaction still listed, whatever Release answers; `order` is the order taken. */
    method Uninitialize(em: EngineManager, released: int -> RetCode) returns (ghost order: seq<int>)
      requires em.Valid()
      modifies this`transactionIds, em, em.engines.Values
      ensures em.Valid() && em.engines.Values <= old(em.engines.Values)
      ensures M.Lists(order, old(transactionIds))
      ensures em.s == M.StopAll(old(em.s), order, released)
      ensures em.clientEngines == old(em.clientEngines) - set t | t in old(transactionIds) && released(t).Success?
      ensures transactionIds == {}
    {
      var rest := transactionIds;
      order := [];
      while rest != {}
        invariant em.Valid() && em.engines.Values <= old(em.engines.Values)
        invariant rest <= transactionIds == old(transactionIds)
        invariant M.Lists(order, transactionIds - rest)
        invariant em.s == M.StopAll(old(em.s), order, released)
        invariant em.clientEngines == old(em.clientEngines) - M.Ended(order, released)
        decreases rest
      {
        var t := AnyOf(rest);
        M.StopAllAppend(old(em.s), order, t, released);
        M.EndedAppend(order, t, released);
        TakenAway(old(em.clientEngines), M.Ended(order, released), if released(t).Success? then {t} else {});
        StopListed(em, t, released(t));
        order := order + [t];
        rest := rest - {t};
      }
      assert transactionIds - rest == transactionIds;
      M.EndedOfListed(order, transactionIds, released);
      transactionIds := {};
    }

    /** One stop of teardown; a transaction that the engine manager does not know stays unknown. */
    method StopListed(em: EngineManager, t: int, released: RetCode)
      requires em.Valid()
      modifies em, em.engines.Values
      ensures em.Valid() && em.engines.Values <= old(em.engines.Values)
      ensures em.s == E.StopEngine(old(em.s), t, released).0
      ensures em.clientEngines == old(em.clientEngines) - if released.Success? then {t} else {}
    {
      var _, _ := em.StopEngine(t, released);
    }
  }

  /** The server's adapter table and its engine manager. */
  class Server {
    const em: EngineManager
    var adapters: map<int, SaServerAdapter>
    ghost var w: M.World

    ghost predicate Valid()
      reads this, em, em.engines.Values, adapters.Values
    {
      M.Inv(w) && Mirrors()
    }

    /** The objects hold what `w` says. */
    ghost predicate Mirrors()
      reads this, em, em.engines.Values, adapters.Values
    {
      && em.Valid() && em.s == w.em
      && adapters.Keys == w.adapters.Keys
      && (forall c :: c in adapters ==> adapters[c].adapterId == c && adapters[c].transactionIds == w.adapters[c])
    }

    constructor ()
      ensures Valid() && w == M.INITIAL && fresh(em)
    {
      em := new EngineManager();
      adapters, w := map[], M.INITIAL;
      new;
      E.RunKeepsInv([]);
    }

    /** `AllocateClientAdapter`, for the id that `FindValidClientId` has found. */
    method AllocateClientAdapter(clientId: int)
      requires Valid() && M.Enabled(w, M.Connect(clientId))
      modifies this
      ensures Valid() && w == M.Apply(old(w), M.Connect(clientId)).0
      ensures clientId in adapters && fresh(adapters[clientId]) && adapters == old(adapters)[clientId := adapters[clientId]]
      ensures adapters[clientId].adapterId == clientId && adapters[clientId].transactionIds == {}
    {
      var adapter := new SaServerAdapter(clientId);
      adapters := adapters[clientId := adapter];
      w := M.Apply(w, M.Connect(clientId)).0;
    }

    /** `LoadAlgoWrapper` once the transaction id is known. */
    method LoadById(client: int, t: int, key: E.EngineKey, validAid: bool, created: RetCode, prepared: RetCode)
      returns (ret: RetCode)
      requires Mirrors() && client in adapters
      modifies this`w, em, em.engines.Values, adapters[client]
      ensures Mirrors() && (w, ret) == M.LoadId(old(w), client, t, key, validAid, created, prepared)
      ensures ret.Success? <==> validAid && (key in old(em.engines) || created.Success?) && prepared.Success?
      ensures ret.Success? ==>
                && key in em.engines && em.engines[key].key == key
                && em.clientEngines == old(em.clientEngines)[t := em.engines[key]]
                && adapters[client].transactionIds == old(adapters[client].transactionIds) + {t}
      ensures !ret.Success? ==> em.clientEngines == old(em.clientEngines)
      ensures forall c :: c in adapters && (c != client || !ret.Success?) ==>
                adapters[c].transactionIds == old(adapters[c].transactionIds)
    {
      ret := adapters[client].LoadAlgorithm(em, t, key, validAid, created, prepared);
      w := M.World(em.s, if ret.Success? then w.adapters[client := w.adapters[client] + {t}] else w.adapters);
    }

    method LoadAlgoWrapper(client: int, session: int, key: E.EngineKey, validAid: bool, created: RetCode, prepared: RetCode)
      returns (ret: RetCode, ghost t: int)
      requires Valid() && IsInt32(session)
      modifies this`w, em, em.engines.Values, adapters.Values
      ensures Valid() && t == client * 0x1_0000_0000 + session
      ensures (w, ret) == M.Apply(old(w), M.Load(client, session, key, validAid, created, prepared))
      ensures client !in adapters ==> ret == NoClientFound
      ensures client in adapters ==>
                (ret.Success? <==> validAid && (key in old(em.engines) || created.Success?) && prepared.Success?)
      ensures ret.Success? ==>
                && key in em.engines && em.engines[key].key == key
                && em.clientEngines == old(em.clientEngines)[t := em.engines[key]]
                && adapters[client].transactionIds == old(adapters[client].transactionIds) + {t}
      ensures !ret.Success? ==> em.clientEngines == old(em.clientEngines)
      ensures forall c :: c in adapters && (c != client || !ret.Success?) ==>
                adapters[c].transactionIds == old(adapters[c].transactionIds)
    {
      t := client * 0x1_0000_0000 + session;
      M.StepKeepsInv(w, M.Load(client, session, key, validAid, created, prepared));
      if client !in adapters {
        return NoClientFound, t;
      }
      TransactionIdIsExact(client, session);
      assert t == TransactionId(client, session);
      ret := LoadById(client, TransactionId(client, session), key, validAid, created, prepared);
    }

    /** `UnloadAlgoWrapper` once the transaction id is known. */
    method UnloadById(client: int, t: int, released: RetCode) returns (ret: RetCode)
      requires Mirrors() && client in adapters
      modifies this`w, em, em.engines.Values, adapters[client]
      ensures Mirrors() && (w, ret) == M.UnloadId(old(w), client, t, released)
      ensures ret == if t in old(em.clientEngines) then released else SaServiceException
      ensures ret.Success? ==>
                && em.clientEngines == old(em.clientEngines) - {t}
                && adapters[client].transactionIds == old(adapters[client].transactionIds) - {t}
      ensures !ret.Success? ==> em.clientEngines == old(em.clientEngines) && adapters[client].transactionIds == old(adapters[client].transactionIds)
    {
      w := M.UnloadId(w, client, t, released).0;
      assert forall c :: c in adapters && c != client ==> adapters[c] != adapters[client];
      ret := adapters[client].UnloadAlgorithm(em, t, released);
    }

    method UnloadAlgoWrapper(client: int, session: int, released: RetCode) returns (ret: RetCode, ghost t: int)
      requires Valid() && IsInt32(session)
      modifies this`w, em, em.engines.Values, adapters.Values
      ensures Valid() && t == client * 0x1_0000_0000 + session
      ensures (w, ret) == M.Apply(old(w), M.Unload(client, session, released))
      ensures ret == if client !in adapters then NoClientFound
                     else if t in old(em.clientEngines) then released else SaServiceException
      ensures ret.Success? ==>
                && em.clientEngines == old(em.clientEngines) - {t}
                && adapters[client].transactionIds == old(adapters[client].transactionIds) - {t}
      ensures !ret.Success? ==> em.clientEngines == old(em.clientEngines)
      ensures forall c :: c in adapters && (c != client || !ret.Success?) ==>
                adapters[c].transactionIds == old(adapters[c].transactionIds)
    {
      t := client * 0x1_0000_0000 + session;
      M.StepKeepsInv(w, M.Unload(client, session, released));
      if client !in adapters {
        return NoClientFound, t;
      }
      TransactionIdIsExact(client, session);
      assert t == TransactionId(client, session);
      ret := UnloadById(client, TransactionId(client, session), released);
    }

    /** The adapter's destructor, and the end of its entry. */
    method TearDown(client: int, released: int -> RetCode) returns (ghost order: seq<int>)
      requires Mirrors() && client in adapters
      modifies this, em, em.engines.Values, adapters[client]
      ensures Mirrors() && M.Lists(order, old(w).adapters[client])
      ensures w == M.World(M.StopAll(old(w).em, order, released), old(w).adapters - {client})
      ensures adapters == old(adapters) - {client}
      ensures em.clientEngines == old(em.clientEngines) - set t | t in old(adapters[client].transactionIds) && released(t).Success?
      ensures forall c :: c in adapters ==> adapters[c].transactionIds == old(adapters[c].transactionIds)
    {
      assert forall c :: c in adapters && c != client ==> adapters[c] != adapters[client];
      order := adapters[client].Uninitialize(em, released);
      w := M.World(em.s, w.adapters - {client});
      adapters := adapters - {client};
    }

    method RemoveAdapterWrapper(client: int, released: int -> RetCode) returns (ret: RetCode, ghost order: seq<int>)
      requires Valid()
      modifies this, em, em.engines.Values, adapters.Values
      ensures Valid() && M.Enabled(old(w), M.Remove(client, order, released))
      ensures (w, ret) == M.Apply(old(w), M.Remove(client, order, released))
      ensures adapters == old(adapters) - {client} && ret == if client in old(adapters) then Success else Failure
      ensures client !in old(adapters) ==> em.clientEngines == old(em.clientEngines)
      ensures client in old(adapters) ==>
                em.clientEngines == old(em.clientEngines) - set t | t in old(adapters[client].transactionIds) && released(t).Success?
      ensures forall c :: c in adapters ==> adapters[c].transactionIds == old(adapters[c].transactionIds)
    {
      if client !in adapters {
        return Failure, [];
      }
      ghost var before := w;
      order := TearDown(client, released);
      M.StepKeepsInv(before, M.Remove(client, order, released));
      return Success, order;
    }
  }
}
