/**
 * The server's clients: every client has an adapter with the set of its live transactions, and all adapters share
 * the engine manager.
 */
module ServerModel {
  import opened Platform
  import opened TransactionIds
  import E = EngineModel

  datatype World = World(em: E.State, adapters: map<int, set<int>>)

  const INITIAL := World(E.INITIAL, map[])

  /** `order` is the order in which teardown stops the transactions, `released(t)` what Release answers for each. */
  datatype Event =
    | Connect(client: int)
    | Load(client: int, session: int, key: E.EngineKey, validAid: bool, created: RetCode, prepared: RetCode)
    | Unload(client: int, session: int, answer: RetCode)
    | Remove(client: int, order: seq<int>, released: int -> RetCode)

  // ---- The operations ----

  ghost predicate Lists(order: seq<int>, ts: set<int>) {
    && (forall i, j :: 0 <= i < j < |order| ==> order[i] != order[j])
    && (forall t :: t in order <==> t in ts)
  }

  /** What the server may do: client ids are fresh and positive, session ids are 32-bit, teardown visits the whole set. */
  ghost predicate Enabled(w: World, e: Event) {
    match e
    case Connect(client) => 1 <= client <= INT_MAX && client !in w.adapters
    case Load(_, session, _, _, _, _) => IsInt32(session)
    case Unload(_, session, _) => IsInt32(session)
    case Remove(client, order, _) => client in w.adapters ==> Lists(order, w.adapters[client])
  }

  ghost function StopAll(em: E.State, order: seq<int>, released: int -> RetCode): E.State
    decreases |order|
  {
    if order == [] then em
    else StopAll(E.StopEngine(em, order[0], released(order[0])).0, order[1..], released)
  }

  /** Loading for the transaction `t` of `client`. */
  ghost function LoadId(w: World, client: int, t: int, key: E.EngineKey, validAid: bool, created: RetCode, prepared: RetCode)
    : (World, RetCode)
  {
    if client !in w.adapters then (w, NoClientFound)
    else
      var (em, ret) := E.StartEngine(w.em, E.Start(t, key, validAid, created, prepared));
      (World(em, if ret.Success? then w.adapters[client := w.adapters[client] + {t}] else w.adapters), ret)
  }

  ghost function UnloadId(w: World, client: int, t: int, answer: RetCode): (World, RetCode) {
    if client !in w.adapters then (w, NoClientFound)
    else
      var (em, ret) := E.StopEngine(w.em, t, answer);
      (World(em, if ret.Success? then w.adapters[client := w.adapters[client] - {t}] else w.adapters), ret)
  }

  ghost function Apply(w: World, e: Event): (World, RetCode) {
    match e
    case Connect(client) => (w.(adapters := w.adapters[client := {}]), Success)
    case Load(client, session, key, validAid, created, prepared) =>
      LoadId(w, client, TransactionId(client, session), key, validAid, created, prepared)
    case Unload(client, session, answer) => UnloadId(w, client, TransactionId(client, session), answer)
    case Remove(client, order, released) =>
      if client !in w.adapters then (w, Failure)
      else (World(StopAll(w.em, order, released), w.adapters - {client}), Success)
  }

  // ---- The invariant ----

  /** The live transactions whose ids lie among the sessions of `client`. */
  ghost function Live(w: World, client: int): set<int> {
    set t | t in w.em.clients && AdapterId(t) == client
  }

  /** The engine manager is in order, and adapters list only live transactions of their own. */
  ghost predicate Inv(w: World) {
    && E.Inv(w.em)
    && (forall c :: c in w.adapters ==> 1 <= c <= INT_MAX && w.adapters[c] <= Live(w, c))
  }

  /** No live transaction is unlisted: each belongs to a connected client whose adapter lists it. */
  ghost predicate AllListed(w: World) {
    forall t :: t in w.em.clients ==> AdapterId(t) in w.adapters && t in w.adapters[AdapterId(t)]
  }

  // ---- Teardown ----

  lemma {:induction false} StopAllAppend(em: E.State, order: seq<int>, t: int, released: int -> RetCode)
    ensures StopAll(em, order + [t], released) == E.StopEngine(StopAll(em, order, released), t, released(t)).0
    decreases |order|
  {
    if order == [] {
      assert [t][1..] == [];
    } else {
      assert (order + [t])[1..] == order[1..] + [t];
      StopAllAppend(E.StopEngine(em, order[0], released(order[0])).0, order[1..], t, released);
    }
  }

  ghost function Ended(order: seq<int>, released: int -> RetCode): set<int> {
    set t | t in order && released(t) == Success
  }

  lemma EndedUnfold(order: seq<int>, released: int -> RetCode)
    requires order != []
    ensures Ended(order, released) == Ended(order[1..], released) + if released(order[0]) == Success then {order[0]} else {}
  {
    assert order == [order[0]] + order[1..];
  }

  lemma EndedAppend(order: seq<int>, t: int, released: int -> RetCode)
    ensures Ended(order + [t], released) == Ended(order, released) + if released(t).Success? then {t} else {}
  {
    assert forall u :: u in order + [t] <==> u in order || u == t;
  }

  lemma EndedOfListed(order: seq<int>, ts: set<int>, released: int -> RetCode)
    requires Lists(order, ts)
    ensures Ended(order, released) == set t | t in ts && released(t).Success?
  {
    forall t
      ensures t in Ended(order, released) <==> t in ts && released(t).Success?
    {
    }
  }

  /** Teardown ends exactly the transactions whose Release succeeds, and touches no other. */
  lemma {:induction false} StopAllClients(em: E.State, order: seq<int>, released: int -> RetCode)
    requires E.Inv(em)
    requires forall t :: t in order ==> t in em.clients
    requires forall i, j :: 0 <= i < j < |order| ==> order[i] != order[j]
    ensures E.Inv(StopAll(em, order, released))
    ensures StopAll(em, order, released).clients == em.clients - Ended(order, released)
    decreases |order|
  {
    if order != [] {
      var t, rest := order[0], order[1..];
      var em1 := E.StopEngine(em, t, released(t)).0;
      E.StepKeepsInv(em, E.Stop(t, released(t)));
      assert em1.clients == em.clients - if released(t) == Success then {t} else {};
      assert forall u :: u in rest ==> u in order && u != t;
      StopAllClients(em1, rest, released);
      EndedUnfold(order, released);
    }
  }

  /**
   * After a client is removed, its transactions that remain are those whose Release failed (and any that were
   * already unlisted), and every other client's transactions keep their engines.
   */
  lemma RemoveEnds(w: World, client: int, order: seq<int>, released: int -> RetCode)
    requires Inv(w) && client in w.adapters && Enabled(w, Remove(client, order, released))
    ensures var w' := Apply(w, Remove(client, order, released)).0;
            && w'.adapters == w.adapters - {client}
            && (forall t :: t in w'.em.clients <==> t in w.em.clients && !(t in w.adapters[client] && released(t) == Success))
            && (forall t :: t in w'.em.clients ==> w'.em.clients[t] == w.em.clients[t])
            && (forall t :: t in w.em.clients && AdapterId(t) != client ==> t in w'.em.clients)
            && E.Inv(w'.em)
  {
    StopAllClients(w.em, order, released);
  }

  /** With every transaction listed, no transaction of a removed client survives exactly when every Release succeeds. */
  lemma RemoveIsClean(w: World, client: int, order: seq<int>, released: int -> RetCode)
    requires Inv(w) && AllListed(w) && client in w.adapters && Enabled(w, Remove(client, order, released))
    ensures var w' := Apply(w, Remove(client, order, released)).0;
            Live(w', client) == {} <==> forall t :: t in w.adapters[client] ==> released(t) == Success
  {
    RemoveEnds(w, client, order, released);
    var w' := Apply(w, Remove(client, order, released)).0;
    if t :| t in w.adapters[client] && released(t) != Success {
      assert t in Live(w, client) && t in w'.em.clients;
      assert t in Live(w', client);
    }
  }

  // ---- Every operation ----

  lemma LoadKeeps(w: World, e: Event)
    requires Inv(w) && e.Load? && Enabled(w, e)
    ensures Inv(Apply(w, e).0)
    ensures AllListed(w) ==> AllListed(Apply(w, e).0)
  {
    if e.client in w.adapters {
      PackingRoundTrip(e.client, e.session);
      E.StepKeepsInv(w.em, E.Start(TransactionId(e.client, e.session), e.key, e.validAid, e.created, e.prepared));
    }
  }

  lemma UnloadKeeps(w: World, e: Event)
    requires Inv(w) && e.Unload? && Enabled(w, e)
    ensures Inv(Apply(w, e).0)
    ensures AllListed(w) ==> AllListed(Apply(w, e).0)
  {
    if e.client in w.adapters {
      PackingRoundTrip(e.client, e.session);
      E.StepKeepsInv(w.em, E.Stop(TransactionId(e.client, e.session), e.answer));
    }
  }

  lemma RemoveKeeps(w: World, e: Event)
    requires Inv(w) && e.Remove? && Enabled(w, e)
    ensures Inv(Apply(w, e).0)
  {
    if e.client in w.adapters {
      RemoveEnds(w, e.client, e.order, e.released);
    }
  }

  lemma StepKeepsInv(w: World, e: Event)
    requires Inv(w) && Enabled(w, e)
    ensures Inv(Apply(w, e).0)
  {
    match e
    case Connect(_) =>
    case Load(_, _, _, _, _, _) => LoadKeeps(w, e);
    case Unload(_, _, _) => UnloadKeeps(w, e);
    case Remove(_, _, _) => RemoveKeeps(w, e);
  }

  /** Loads of two sessions leave two transactions, each on its own engine, both listed. */
  lemma TwoSessions(w: World, client: int, s1: int, s2: int, k1: E.EngineKey, k2: E.EngineKey)
    requires Inv(w) && client in w.adapters && IsInt32(s1) && IsInt32(s2) && s1 != s2
    ensures var t1, t2 := client * 0x1_0000_0000 + s1, client * 0x1_0000_0000 + s2;
            var w1 := Apply(w, Load(client, s1, k1, true, Success, Success)).0;
            var w2 := Apply(w1, Load(client, s2, k2, true, Success, Success)).0;
            && w2.em.clients == w.em.clients[t1 := k1][t2 := k2] && t1 != t2
            && w2.adapters == w.adapters[client := w.adapters[client] + {t1, t2}]
  {
    TransactionIdIsExact(client, s1);
    TransactionIdIsExact(client, s2);
    var w1 := Apply(w, Load(client, s1, k1, true, Success, Success)).0;
    var t1, t2 := TransactionId(client, s1), TransactionId(client, s2);
    assert w.adapters[client] + {t1} + {t2} == w.adapters[client] + {t1, t2};
    assert w1.adapters[client := w.adapters[client] + {t1, t2}] == w.adapters[client := w.adapters[client] + {t1, t2}];
  }

  /**
   * Loading a session that is not live and unloading it undoes the load, whatever happens to other sessions, exactly
   * unless its engine was stored without references, as a Prepare that refuses leaves it.
   */
  lemma LoadThenUnload(w: World, client: int, session: int, key: E.EngineKey)
    requires Inv(w) && client in w.adapters && IsInt32(session)
    requires client * 0x1_0000_0000 + session !in w.em.clients
    ensures var w1 := Apply(w, Load(client, session, key, true, Success, Success)).0;
            var (w2, ret) := Apply(w1, Unload(client, session, Success));
            && ret.Success? && w2.em.clients == w.em.clients && w2.adapters == w.adapters
            && (w2 == w <==> !(key in w.em.engines && w.em.engines[key] == 0))
  {
    TransactionIdIsExact(client, session);
    var t := TransactionId(client, session);
    LoadedThenUnloaded(w, client, t, key);
  }

  lemma LoadedThenUnloaded(w: World, client: int, t: int, key: E.EngineKey)
    requires Inv(w) && client in w.adapters && t !in w.em.clients
    ensures var w1 := LoadId(w, client, t, key, true, Success, Success).0;
            var (w2, ret) := UnloadId(w1, client, t, Success);
            && ret.Success? && w2.em.clients == w.em.clients && w2.adapters == w.adapters
            && (w2 == w <==> !(key in w.em.engines && w.em.engines[key] == 0))
  {
    var w1 := LoadId(w, client, t, key, true, Success, Success).0;
    var w2 := UnloadId(w1, client, t, Success).0;
    assert t !in w.adapters[client];
    assert w.adapters[client] + {t} - {t} == w.adapters[client];
    assert w2.em.clients == w.em.clients;
    if key in w.em.engines {
      assert w.em.engines[key] != 0 ==> w2.em.engines == w.em.engines;
    } else {
      assert w2.em.engines == w.em.engines;
    }
  }

  /** Whether a step is a teardown in which some Release fails. */
  ghost predicate DirtyRemove(w: World, e: Event) {
    e.Remove? && e.client in w.adapters && exists t :: t in w.adapters[e.client] && e.released(t) != Success
  }

  /** The adapters list exactly the live transactions until a teardown meets a Release that fails. */
  lemma ListedUntilDirty(w: World, e: Event)
    requires Inv(w) && AllListed(w) && Enabled(w, e)
    ensures AllListed(Apply(w, e).0) <==> !DirtyRemove(w, e)
  {
    match e
    case Connect(_) =>
    case Load(_, _, _, _, _, _) => LoadKeeps(w, e);
    case Unload(_, _, _) => UnloadKeeps(w, e);
    case Remove(client, order, released) =>
      if client in w.adapters {
        RemoveEnds(w, client, order, released);
        RemoveIsClean(w, client, order, released);
      }
  }

  // ---- Whole runs ----

  ghost predicate Legal(w: World, run: seq<Event>)
    decreases |run|
  {
    run == [] || (Enabled(w, run[0]) && Legal(Apply(w, run[0]).0, run[1..]))
  }

  ghost predicate Clean(w: World, run: seq<Event>)
    decreases |run|
  {
    run == [] || (!DirtyRemove(w, run[0]) && Clean(Apply(w, run[0]).0, run[1..]))
  }

  ghost function After(w: World, run: seq<Event>): World
    decreases |run|
  {
    if run == [] then w else After(Apply(w, run[0]).0, run[1..])
  }

  /** Over every run, adapters list only their own live transactions; over every clean run, all of them. */
  lemma {:induction false} RunKeeps(w: World, run: seq<Event>)
    requires Inv(w) && Legal(w, run)
    ensures Inv(After(w, run))
    ensures AllListed(w) && Clean(w, run) ==> AllListed(After(w, run))
    decreases |run|
  {
    if run != [] {
      StepKeepsInv(w, run[0]);
      if AllListed(w) {
        ListedUntilDirty(w, run[0]);
      }
      RunKeeps(Apply(w, run[0]).0, run[1..]);
    }
  }

  lemma RunFromStart(run: seq<Event>)
    requires Legal(INITIAL, run)
    ensures var w := After(INITIAL, run);
            && Inv(w)
            && (Clean(INITIAL, run) ==> forall c :: c in w.adapters ==> w.adapters[c] == Live(w, c))
  {
    E.RunKeepsInv([]);
    RunKeeps(INITIAL, run);
  }
}
