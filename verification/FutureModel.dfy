/**
 * Asynchronous calls on the server, from the sequence id a caller reserves to the response a client's worker
 * fetches. One event is one call under its lock; `Respond` is one call of ProcessResponse.
 */
module FutureModel {
  import opened Platform
  import opened IdRing
  import opened IdAllocators

  /** The response a future holds; responses are numbered. */
  datatype Answer = NoAnswer | Answer(response: int)

  /**
   * `reserved` are ids that FindSequenceId gave to a creator who has not stored the future yet; `queues` are the
   * handlers of the clients. The last five fields record what has happened: the ids OnReply ran for, the
   * responses the server accepted, those it destroyed, those a worker fetched, and those that were dropped
   * without being destroyed.
   */
  datatype State = State(
    sequenceId: int,
    reserved: map<int, int>,
    futures: map<int, Answer>,
    listeners: map<int, int>,
    queues: map<int, seq<int>>,
    replied: seq<int>,
    accepted: set<int>,
    destroyed: multiset<int>,
    fetched: multiset<int>,
    lost: multiset<int>)

  const INITIAL := State(0, map[], map[], map[], map[], [], {}, multiset{}, multiset{}, multiset{})

  datatype Event =
    | Reserve(creator: int)
    | Abandon(creator: int)
    | Store(creator: int)
    | Respond(response: int, id: int, t: int)
    | Delete(id: int)
    | Register(t: int, client: int)
    | Unregister(t: int)
    | AddHandler(client: int)
    | RemoveHandler(client: int)
    | Fetch(client: int)

  /**
   * A creator reserves one id at a time, before the counter ends; a plugin hands in each response once; a
   * client has one handler.
   */
  ghost predicate Enabled(s: State, e: Event) {
    match e
    case Reserve(creator) => creator !in s.reserved && s.sequenceId < LLONG_MAX
    case Abandon(creator) => creator in s.reserved
    case Store(creator) => creator in s.reserved
    case Respond(response, _, _) => response !in s.accepted
    case AddHandler(client) => client !in s.queues
    case _ => true
  }

  /** The response a future holds; it is destroyed with the future, or when the next one comes. */
  ghost function HeldBy(a: Answer): multiset<int> {
    if a.Answer? then multiset{a.response} else multiset{}
  }

  /** `SetResponse` on the future of `id`. */
  ghost function SetResponse(s: State, response: int, id: int): State
    requires id in s.futures
  {
    s.(futures := s.futures[id := Answer(response)], accepted := s.accepted + {response},
       destroyed := s.destroyed + HeldBy(s.futures[id]))
  }

  /** OnReply, DetachResponse and DeleteFuture: the response goes to the client's handler, if there is one. */
  ghost function Deliver(s: State, response: int, id: int, client: int): State
  {
    var s1 := s.(futures := s.futures - {id}, replied := s.replied + [id]);
    if client in s.queues then
      s1.(queues := s.queues[client := s.queues[client] + [response]])
    else
      s1.(lost := s.lost + multiset{response})
  }

  ghost function ProcessResponse(s: State, response: int, id: int, t: int): (State, RetCode) {
    if id !in s.futures then
      (s, NullParam)
    else if t !in s.listeners then
      (SetResponse(s, response, id), NoListenerFound)
    else
      (Deliver(SetResponse(s, response, id), response, id, s.listeners[t]), Success)
  }

  ghost function Apply(s: State, e: Event): State
    requires Enabled(s, e)
  {
    match e
    case Reserve(creator) =>
      if |s.futures| > MAX_NUM_FUTURES then s
      else s.(sequenceId := s.sequenceId + 1, reserved := s.reserved[creator := s.sequenceId + 1])
    case Abandon(creator) => s.(reserved := s.reserved - {creator})
    case Store(creator) =>
      s.(futures := s.futures[s.reserved[creator] := NoAnswer], reserved := s.reserved - {creator})
    case Respond(response, id, t) => ProcessResponse(s, response, id, t).0
    case Delete(id) =>
      if id in s.futures then s.(futures := s.futures - {id}, destroyed := s.destroyed + HeldBy(s.futures[id])) else s
    case Register(t, client) => s.(listeners := s.listeners[t := client])
    case Unregister(t) => s.(listeners := s.listeners - {t})
    case AddHandler(client) => s.(queues := s.queues[client := []])
    case RemoveHandler(client) =>
      if client in s.queues then s.(queues := s.queues - {client}, destroyed := s.destroyed + multiset(s.queues[client]))
      else s
    case Fetch(client) =>
      if client in s.queues && s.queues[client] != [] then
        s.(queues := s.queues[client := s.queues[client][1..]], fetched := s.fetched + multiset{s.queues[client][0]})
      else s
  }

  // ---- The invariant ----

  /** Ids in use, reserved by a creator or stored, are distinct. */
  ghost predicate IdsAreDistinct(s: State) {
    && 0 <= s.sequenceId <= LLONG_MAX
    && (forall c :: c in s.reserved ==> 1 <= s.reserved[c] <= s.sequenceId && s.reserved[c] !in s.futures)
    && (forall c, d :: c in s.reserved && d in s.reserved && s.reserved[c] == s.reserved[d] ==> c == d)
    && (forall id :: id in s.futures ==> 1 <= id <= s.sequenceId)
  }

  /** OnReply ran at most once for an id, and an id it ran for is not in use any more. */
  ghost predicate RepliedOnce(s: State) {
    && (forall i, j :: 0 <= i < j < |s.replied| ==> s.replied[i] != s.replied[j])
    && (forall id :: id in s.replied ==> id <= s.sequenceId && id !in s.futures)
    && (forall c :: c in s.reserved ==> s.reserved[c] !in s.replied)
  }

  /** How often the entries of a table hold `r`. */
  ghost function Count<K(!new)>(m: map<K, multiset<int>>, r: int): nat
    decreases |m|
  {
    if m == map[] then 0 else
    var k :| k in m;
    RestIsSmaller(m, k);
    m[k][r] + Count(m - {k}, r)
  }

  lemma RestIsSmaller<K>(m: map<K, multiset<int>>, k: K)
    requires k in m
    ensures |m - {k}| < |m|
  {
    assert m.Keys == (m - {k}).Keys + {k};
  }

  ghost function HeldByFutures(futures: map<int, Answer>): map<int, multiset<int>> {
    map id | id in futures :: HeldBy(futures[id])
  }

  ghost function HeldByHandlers(queues: map<int, seq<int>>): map<int, multiset<int>> {
    map c | c in queues :: multiset(queues[c])
  }

  ghost function InFutures(s: State, r: int): nat {
    Count(HeldByFutures(s.futures), r)
  }

  ghost function InQueues(s: State, r: int): nat {
    Count(HeldByHandlers(s.queues), r)
  }

  /** How many places `r` is in, with multiplicity. */
  ghost function Places(s: State, r: int): nat {
    InFutures(s, r) + InQueues(s, r) + s.destroyed[r] + s.fetched[r] + s.lost[r]
  }

  /** Responses are neither created nor copied nor forgotten: each accepted one is in exactly one place. */
  ghost predicate Conserved(s: State) {
    forall r :: Places(s, r) == if r in s.accepted then 1 else 0
  }

  ghost predicate Inv(s: State) {
    IdsAreDistinct(s) && RepliedOnce(s) && Conserved(s)
  }

  // ---- Tables ----

  lemma {:induction false} CountWithout<K(!new)>(m: map<K, multiset<int>>, k: K, r: int)
    requires k in m
    ensures Count(m, r) == m[k][r] + Count(m - {k}, r)
    decreases |m|
  {
    var c :| c in m && Count(m, r) == m[c][r] + Count(m - {c}, r);
    if c != k {
      RestIsSmaller(m, c);
      RestIsSmaller(m, k);
      CountWithout(m - {c}, k, r);
      CountWithout(m - {k}, c, r);
      assert m - {c} - {k} == m - {k} - {c};
    }
  }

  lemma CountUpdated<K(!new)>(m: map<K, multiset<int>>, k: K, v: multiset<int>, r: int)
    ensures Count(m[k := v], r) == Count(m, r) + v[r] - if k in m then m[k][r] else 0
  {
    var n := m[k := v];
    CountWithout(n, k, r);
    assert n - {k} == m - {k};
    if k in m {
      CountWithout(m, k, r);
    } else {
      assert m - {k} == m;
    }
  }

  lemma StoredFuture(s: State, id: int, a: Answer, r: int)
    ensures InFutures(s.(futures := s.futures[id := a]), r) ==
            InFutures(s, r) + HeldBy(a)[r] - if id in s.futures then HeldBy(s.futures[id])[r] else 0
  {
    CountUpdated(HeldByFutures(s.futures), id, HeldBy(a), r);
    assert HeldByFutures(s.futures[id := a]) == HeldByFutures(s.futures)[id := HeldBy(a)];
  }

  lemma DeletedFuture(s: State, id: int, r: int)
    requires id in s.futures
    ensures InFutures(s, r) == HeldBy(s.futures[id])[r] + InFutures(s.(futures := s.futures - {id}), r)
  {
    CountWithout(HeldByFutures(s.futures), id, r);
    assert HeldByFutures(s.futures - {id}) == HeldByFutures(s.futures) - {id};
  }

  lemma StoredQueue(s: State, c: int, q: seq<int>, r: int)
    ensures InQueues(s.(queues := s.queues[c := q]), r) ==
            InQueues(s, r) + multiset(q)[r] - if c in s.queues then multiset(s.queues[c])[r] else 0
  {
    CountUpdated(HeldByHandlers(s.queues), c, multiset(q), r);
    assert HeldByHandlers(s.queues[c := q]) == HeldByHandlers(s.queues)[c := multiset(q)];
  }

  lemma DeletedQueue(s: State, c: int, r: int)
    requires c in s.queues
    ensures InQueues(s, r) == multiset(s.queues[c])[r] + InQueues(s.(queues := s.queues - {c}), r)
  {
    CountWithout(HeldByHandlers(s.queues), c, r);
    assert HeldByHandlers(s.queues - {c}) == HeldByHandlers(s.queues) - {c};
  }

  // ---- Every step keeps it ----

  lemma ReserveKeepsIds(s: State, creator: int)
    requires Enabled(s, Reserve(creator)) && IdsAreDistinct(s) && RepliedOnce(s)
    ensures IdsAreDistinct(Apply(s, Reserve(creator))) && RepliedOnce(Apply(s, Reserve(creator)))
  {
  }

  lemma StoreKeepsIds(s: State, creator: int)
    requires Enabled(s, Store(creator)) && IdsAreDistinct(s) && RepliedOnce(s)
    ensures IdsAreDistinct(Apply(s, Store(creator))) && RepliedOnce(Apply(s, Store(creator)))
  {
  }

  lemma RespondKeepsIds(s: State, response: int, id: int, t: int)
    requires response !in s.accepted && IdsAreDistinct(s) && RepliedOnce(s)
    ensures var s1 := Apply(s, Respond(response, id, t)); IdsAreDistinct(s1) && RepliedOnce(s1)
  {
  }

  lemma SetResponseConserves(s: State, response: int, id: int)
    requires Conserved(s) && id in s.futures && response !in s.accepted
    ensures Conserved(SetResponse(s, response, id))
  {
    var s1 := SetResponse(s, response, id);
    forall r
      ensures Places(s1, r) == if r in s1.accepted then 1 else 0
    {
      StoredFuture(s, id, Answer(response), r);
      assert Places(s, r) == if r in s.accepted then 1 else 0;
    }
  }

  lemma DeliverConserves(s: State, response: int, id: int, client: int)
    requires Conserved(s) && id in s.futures && s.futures[id] == Answer(response)
    ensures Conserved(Deliver(s, response, id, client))
  {
    var s1 := Deliver(s, response, id, client);
    forall r
      ensures Places(s1, r) == if r in s1.accepted then 1 else 0
    {
      DeletedFuture(s, id, r);
      if client in s.queues {
        StoredQueue(s, client, s.queues[client] + [response], r);
      }
      assert Places(s, r) == if r in s.accepted then 1 else 0;
    }
  }

  lemma StoreConserves(s: State, creator: int)
    requires Inv(s) && creator in s.reserved
    ensures Conserved(Apply(s, Store(creator)))
  {
    var s1 := Apply(s, Store(creator));
    forall r
      ensures Places(s1, r) == if r in s1.accepted then 1 else 0
    {
      StoredFuture(s, s.reserved[creator], NoAnswer, r);
      assert Places(s, r) == if r in s.accepted then 1 else 0;
    }
  }

  lemma DeleteConserves(s: State, id: int)
    requires Conserved(s)
    ensures Conserved(Apply(s, Delete(id)))
  {
    var s1 := Apply(s, Delete(id));
    forall r
      ensures Places(s1, r) == if r in s1.accepted then 1 else 0
    {
      if id in s.futures {
        DeletedFuture(s, id, r);
      }
      assert Places(s, r) == if r in s.accepted then 1 else 0;
    }
  }

  lemma HandlersConserve(s: State, e: Event)
    requires Conserved(s) && Enabled(s, e) && (e.AddHandler? || e.RemoveHandler? || e.Fetch?)
    ensures Conserved(Apply(s, e))
  {
    var s1, c := Apply(s, e), e.client;
    forall r
      ensures Places(s1, r) == if r in s1.accepted then 1 else 0
    {
      if e.AddHandler? {
        StoredQueue(s, c, [], r);
      } else if c in s.queues {
        if e.RemoveHandler? {
          DeletedQueue(s, c, r);
        } else if s.queues[c] != [] {
          assert s.queues[c] == [s.queues[c][0]] + s.queues[c][1..];
          StoredQueue(s, c, s.queues[c][1..], r);
        }
      }
      assert Places(s, r) == if r in s.accepted then 1 else 0;
    }
  }

  lemma UntouchedConserves(s: State, e: Event)
    requires Conserved(s) && Enabled(s, e) && (e.Reserve? || e.Abandon? || e.Register? || e.Unregister?)
    ensures Conserved(Apply(s, e))
  {
    var s1 := Apply(s, e);
    forall r
      ensures Places(s1, r) == if r in s1.accepted then 1 else 0
    {
      assert Places(s, r) == if r in s.accepted then 1 else 0;
    }
  }

  lemma RespondConserves(s: State, response: int, id: int, t: int)
    requires Conserved(s) && response !in s.accepted
    ensures Conserved(Apply(s, Respond(response, id, t)))
  {
    if id in s.futures {
      SetResponseConserves(s, response, id);
      if t in s.listeners {
        DeliverConserves(SetResponse(s, response, id), response, id, s.listeners[t]);
      }
    }
  }

  lemma StepKeepsIds(s: State, e: Event)
    requires Enabled(s, e) && IdsAreDistinct(s) && RepliedOnce(s)
    ensures IdsAreDistinct(Apply(s, e)) && RepliedOnce(Apply(s, e))
  {
    match e
    case Reserve(creator) => ReserveKeepsIds(s, creator);
    case Store(creator) => StoreKeepsIds(s, creator);
    case Respond(response, id, t) => RespondKeepsIds(s, response, id, t);
    case _ =>
  }

  lemma StepKeepsInv(s: State, e: Event)
    requires Inv(s) && Enabled(s, e)
    ensures Inv(Apply(s, e))
  {
    StepKeepsIds(s, e);
    match e
    case Store(creator) => StoreConserves(s, creator);
    case Respond(response, id, t) => RespondConserves(s, response, id, t);
    case Delete(id) => DeleteConserves(s, id);
    case AddHandler(_) => HandlersConserve(s, e);
    case RemoveHandler(_) => HandlersConserve(s, e);
    case Fetch(_) => HandlersConserve(s, e);
    case _ => UntouchedConserves(s, e);
  }

  // ---- Whole runs ----

  ghost predicate CanRun(s: State, es: seq<Event>)
    decreases |es|
  {
    es == [] || (Enabled(s, es[0]) && CanRun(Apply(s, es[0]), es[1..]))
  }

  ghost function Run(s: State, es: seq<Event>): State
    requires CanRun(s, es)
    decreases |es|
  {
    if es == [] then s else Run(Apply(s, es[0]), es[1..])
  }

  lemma {:induction false} RunKeepsInv(s: State, es: seq<Event>)
    requires Inv(s) && CanRun(s, es)
    ensures Inv(Run(s, es))
    decreases |es|
  {
    if es != [] {
      StepKeepsInv(s, es[0]);
      RunKeepsInv(Apply(s, es[0]), es[1..]);
    }
  }

  lemma InitialInv()
    ensures Inv(INITIAL)
  {
    forall r
      ensures Places(INITIAL, r) == 0
    {
      assert HeldByFutures(map[]) == map[] && HeldByHandlers(map[]) == map[];
    }
  }

  lemma HeldIsCounted(s: State, id: int, r: int)
    requires id in s.futures && s.futures[id] == Answer(r)
    ensures InFutures(s, r) >= 1
  {
    DeletedFuture(s, id, r);
  }

  lemma QueuedIsCounted(s: State, c: int, r: int)
    requires c in s.queues
    ensures InQueues(s, r) >= multiset(s.queues[c])[r]
  {
    DeletedQueue(s, c, r);
  }

  /**
   * At every point of every run, from any interleaving of creators: ids in use are distinct, OnReply has run at
   * most once for an id, and for none in use.
   */
  lemma IdsStayDistinct(es: seq<Event>)
    requires CanRun(INITIAL, es)
    ensures var s := Run(INITIAL, es);
            && (forall c, d :: c in s.reserved && d in s.reserved && c != d ==> s.reserved[c] != s.reserved[d])
            && (forall c :: c in s.reserved ==> s.reserved[c] !in s.futures)
            && (forall i, j :: 0 <= i < j < |s.replied| ==> s.replied[i] != s.replied[j])
            && (forall id :: id in s.replied ==> id !in s.futures && forall c :: c in s.reserved ==> s.reserved[c] != id)
  {
    InitialInv();
    RunKeepsInv(INITIAL, es);
  }

  /**
   * At every point of every run, a response held by a future is held by no other future, in no queue, and
   * has not been destroyed, fetched or lost.
   */
  lemma FutureOwnsAlone(es: seq<Event>, id: int, r: int)
    requires CanRun(INITIAL, es)
    requires var s := Run(INITIAL, es); id in s.futures && s.futures[id] == Answer(r)
    ensures var s := Run(INITIAL, es);
            && (forall jd :: jd in s.futures && s.futures[jd] == Answer(r) ==> jd == id)
            && (forall c :: c in s.queues ==> r !in s.queues[c])
            && s.destroyed[r] == s.fetched[r] == s.lost[r] == 0
  {
    var s := Run(INITIAL, es);
    InitialInv();
    RunKeepsInv(INITIAL, es);
    assert Places(s, r) == if r in s.accepted then 1 else 0;
    HeldIsCounted(s, id, r);
    forall jd | jd in s.futures && s.futures[jd] == Answer(r)
      ensures jd == id
    {
      DeletedFuture(s, id, r);
      if jd != id {
        HeldIsCounted(s.(futures := s.futures - {id}), jd, r);
      }
    }
    forall c | c in s.queues
      ensures r !in s.queues[c]
    {
      QueuedIsCounted(s, c, r);
    }
  }

  /**
   * At every point of every run, a queued response is in one place of one queue, and has not been destroyed,
   * fetched or lost.
   */
  lemma QueueOwnsAlone(es: seq<Event>, c: int, r: int)
    requires CanRun(INITIAL, es)
    requires var s := Run(INITIAL, es); c in s.queues && r in s.queues[c]
    ensures var s := Run(INITIAL, es);
            && multiset(s.queues[c])[r] == 1
            && (forall d :: d in s.queues && r in s.queues[d] ==> d == c)
            && s.destroyed[r] == s.fetched[r] == s.lost[r] == 0
  {
    var s := Run(INITIAL, es);
    InitialInv();
    RunKeepsInv(INITIAL, es);
    assert Places(s, r) == if r in s.accepted then 1 else 0;
    assert multiset(s.queues[c])[r] >= 1;
    QueuedIsCounted(s, c, r);
    forall d | d in s.queues && r in s.queues[d]
      ensures d == c
    {
      DeletedQueue(s, c, r);
      if d != c {
        assert multiset(s.queues[d])[r] >= 1;
        QueuedIsCounted(s.(queues := s.queues - {c}), d, r);
      }
    }
  }

  // ---- Losing a response ----

  /** OnReply finds no handler of the client. */
  ghost predicate AnswersNobody(s: State, e: Event) {
    e.Respond? && e.id in s.futures && e.t in s.listeners && s.listeners[e.t] !in s.queues
  }

  ghost predicate AlwaysAHandler(s: State, es: seq<Event>)
    requires CanRun(s, es)
    decreases |es|
  {
    es == [] || (!AnswersNobody(s, es[0]) && AlwaysAHandler(Apply(s, es[0]), es[1..]))
  }

  lemma {:induction false} LostNeverShrinks(s: State, es: seq<Event>)
    requires CanRun(s, es)
    ensures |Run(s, es).lost| >= |s.lost|
    decreases |es|
  {
    if es != [] {
      LostNeverShrinks(Apply(s, es[0]), es[1..]);
    }
  }

  /** The record of lost responses grows exactly when OnReply finds a listener whose client has no handler any more. */
  lemma {:induction false} LossIsRecorded(s: State, es: seq<Event>)
    requires CanRun(s, es)
    ensures |Run(s, es).lost| == |s.lost| <==> AlwaysAHandler(s, es)
    decreases |es|
  {
    if es != [] {
      var s1 := Apply(s, es[0]);
      LossIsRecorded(s1, es[1..]);
      LostNeverShrinks(s1, es[1..]);
      assert AnswersNobody(s, es[0]) ==> |s1.lost| == |s.lost| + 1;
    }
  }

  /** A future holds `r`, a handler queues it, or it was destroyed or fetched. */
  ghost predicate IsSomewhere(s: State, r: int) {
    || (exists id :: id in s.futures && s.futures[id] == Answer(r))
    || (exists c :: c in s.queues && r in s.queues[c])
    || r in s.destroyed || r in s.fetched
  }

  lemma {:induction false} CountedIsHeld<K(!new)>(m: map<K, multiset<int>>, r: int) returns (k: K)
    requires Count(m, r) > 0
    ensures k in m && r in m[k]
    decreases |m|
  {
    k :| k in m && Count(m, r) == m[k][r] + Count(m - {k}, r);
    if r !in m[k] {
      RestIsSmaller(m, k);
      k := CountedIsHeld(m - {k}, r);
    }
  }

  lemma SomewhereIffCounted(s: State, r: int)
    ensures IsSomewhere(s, r) <==> InFutures(s, r) + InQueues(s, r) + s.destroyed[r] + s.fetched[r] > 0
  {
    if InFutures(s, r) > 0 {
      var id := CountedIsHeld(HeldByFutures(s.futures), r);
      assert s.futures[id] == Answer(r);
    } else if InQueues(s, r) > 0 {
      var c := CountedIsHeld(HeldByHandlers(s.queues), r);
      assert r in s.queues[c];
    } else if id :| id in s.futures && s.futures[id] == Answer(r) {
      HeldIsCounted(s, id, r);
    } else if c :| c in s.queues && r in s.queues[c] {
      assert multiset(s.queues[c])[r] > 0;
      QueuedIsCounted(s, c, r);
    }
  }

  /** An accepted response is somewhere unless it is recorded as lost. */
  lemma LostIsNowhere(s: State, r: int)
    requires Conserved(s)
    ensures r in s.lost <==> r in s.accepted && !IsSomewhere(s, r)
  {
    SomewhereIffCounted(s, r);
    assert Places(s, r) == if r in s.accepted then 1 else 0;
  }

  /**
   * At the end of a run every response that was accepted is held, queued, destroyed or fetched, exactly when OnReply
   * never found a listener whose client had no handler any more.
   */
  lemma NothingLostIff(es: seq<Event>)
    requires CanRun(INITIAL, es)
    ensures var s := Run(INITIAL, es);
            (forall r :: r in s.accepted ==> IsSomewhere(s, r)) <==> AlwaysAHandler(INITIAL, es)
  {
    InitialInv();
    RunKeepsInv(INITIAL, es);
    LossIsRecorded(INITIAL, es);
    NoneLostIff(Run(INITIAL, es));
  }

  lemma NoneLostIff(s: State)
    requires Conserved(s)
    ensures (forall r :: r in s.accepted ==> IsSomewhere(s, r)) <==> |s.lost| == 0
  {
    forall r
      ensures r in s.lost <==> r in s.accepted && !IsSomewhere(s, r)
    {
      LostIsNowhere(s, r);
    }
    if r :| r in s.lost {
      assert |s.lost| > 0;
    } else {
      assert forall r :: s.lost[r] == 0;
      assert s.lost == multiset{};
    }
  }

  // ---- The search behind `Reserve` ----

  /** Short of the counter's end, the first id that no future uses is simply the next one. */
  lemma NextIdIsFirstFree(s: State, id: int, probes: nat)
    requires IdsAreDistinct(s) && s.sequenceId < LLONG_MAX
    requires FirstFree(s.sequenceId, id, probes, s.futures.Keys, 1, LLONG_MAX)
    ensures id == s.sequenceId + 1
  {
    NextOrUsed(s.sequenceId, id, probes, s.futures.Keys, 1, LLONG_MAX);
  }

  /**
   * The search looks at stored futures only. It gives out an id that a creator still holds exactly when that id
   * and no id between the counter and it is free of futures.
   */
  lemma RepeatsReservedIff(s: State, creator: int, id: int, probes: nat, m: nat)
    requires Cursor(s.sequenceId, 1, LLONG_MAX) && 1 <= m <= LLONG_MAX
    requires creator in s.reserved && s.reserved[creator] == Nth(s.sequenceId, m, 1, LLONG_MAX)
    requires FirstFree(s.sequenceId, id, probes, s.futures.Keys, 1, LLONG_MAX)
    ensures id == s.reserved[creator] <==>
            s.reserved[creator] !in s.futures && AllUsed(s.sequenceId, m - 1, s.futures.Keys, 1, LLONG_MAX)
  {
    ReturnsNthIff(s.sequenceId, id, probes, s.futures.Keys, 1, LLONG_MAX, m);
  }

  /** The ids that follow the counter within one full table, across the wrap-around. */
  ghost predicate WithinReach(c: int, id: int) {
    c < id <= c + MAX_NUM_FUTURES + 1 || id + LLONG_MAX <= c + MAX_NUM_FUTURES + 1
  }

  /**
   * What creators can rely on, wherever the counter stands: whatever futures are stored, the search returns none of
   * the reserved ids, exactly when none of them is among the next 1025.
   */
  lemma ReservedAreSafeIff(c: int, reserved: set<int>)
    requires Cursor(c, 1, LLONG_MAX) && forall id :: id in reserved ==> 1 <= id <= LLONG_MAX
    ensures (forall id :: id in reserved ==> !CanReturn(c, id, MAX_NUM_FUTURES, 1, LLONG_MAX)) <==>
            (forall id :: id in reserved ==> !WithinReach(c, id))
  {
    forall id | id in reserved
      ensures CanReturn(c, id, MAX_NUM_FUTURES, 1, LLONG_MAX) <==> WithinReach(c, id)
    {
      CanReturnExactly(c, id, MAX_NUM_FUTURES, 1, LLONG_MAX);
    }
  }

  /** For one: at the counter's end it gives out id 1 although a creator still holds it. */
  lemma WrapRepeatsReserved(s: State, creator: int, id: int, probes: nat)
    requires s.sequenceId == LLONG_MAX && creator in s.reserved && s.reserved[creator] == 1 && 1 !in s.futures
    requires FirstFree(s.sequenceId, id, probes, s.futures.Keys, 1, LLONG_MAX)
    ensures id == s.reserved[creator]
  {
    NthClosed(s.sequenceId, 1, 1, LLONG_MAX);
    RepeatsReservedIff(s, creator, id, probes, 1);
  }
}
