/**
 * What the asynchronous calls of a run amount to, read off its events: which ids are live, whom a transaction's
 * responses go to, and what each client's handler queues.
 */
module FutureHistory {
  import opened Platform
  import opened IdAllocators
  import opened FutureModel

  /** How many ids were given out; none is while more than 1024 futures are stored. */
  ghost function Granted(es: seq<Event>): nat
    decreases |es|, 0
  {
    if es == [] then 0
    else
      var before, e := es[..|es| - 1], es[|es| - 1];
      Granted(before) + if e.Reserve? && |LiveIds(before)| <= 1024 then 1 else 0
  }

  /** The id that a creator holds between its two calls: the number of its reservation. */
  ghost function ReservedFor(es: seq<Event>, creator: int): Option<int>
    decreases |es|, 1
  {
    if es == [] then None
    else
      var before, e := es[..|es| - 1], es[|es| - 1];
      if e == Reserve(creator) then (if |LiveIds(before)| <= 1024 then Some(Granted(es)) else None)
      else if e == Abandon(creator) || e == Store(creator) then None
      else ReservedFor(before, creator)
  }

  /** Ids are live from their store to their deletion, or to the response that finds a listener. */
  ghost function LiveIds(es: seq<Event>): set<int>
    decreases |es|, 0
  {
    if es == [] then {}
    else
      var before, e := es[..|es| - 1], es[|es| - 1];
      var live := LiveIds(before);
      match e
      case Store(creator) =>
        var id := ReservedFor(before, creator);
        if id.Some? then live + {id.value} else live
      case Delete(id) => live - {id}
      case Respond(_, id, t) => if LastClient(before, t).Some? then live - {id} else live
      case _ => live
  }

  /** The client that registered the transaction last, unless it was unregistered since. */
  ghost function LastClient(es: seq<Event>, t: int): Option<int>
    decreases |es|, 0
  {
    if es == [] then None
    else
      var before, e := es[..|es| - 1], es[|es| - 1];
      if e.Register? && e.t == t then Some(e.client)
      else if e.Unregister? && e.t == t then None
      else LastClient(before, t)
  }

  ghost predicate HasHandler(es: seq<Event>, client: int)
    decreases |es|
  {
    es != [] &&
    var before, e := es[..|es| - 1], es[|es| - 1];
    if e == AddHandler(client) then true
    else if e == RemoveHandler(client) then false
    else HasHandler(before, client)
  }

  /** The responses that went to the client since its handler was added, in order, without those fetched. */
  ghost function QueueOf(es: seq<Event>, client: int): seq<int>
    decreases |es|
  {
    if es == [] then []
    else
      var before, e := es[..|es| - 1], es[|es| - 1];
      var queue := QueueOf(before, client);
      match e
      case Respond(response, id, t) =>
        if id in LiveIds(before) && LastClient(before, t) == Some(client) then queue + [response] else queue
      case AddHandler(c) => if c == client then [] else queue
      case Fetch(c) => if c == client && queue != [] then queue[1..] else queue
      case _ => queue
  }

  /** The last response for the id since it was stored. */
  ghost function LastAnswer(es: seq<Event>, id: int): Answer
    decreases |es|
  {
    if es == [] then NoAnswer
    else
      var before, e := es[..|es| - 1], es[|es| - 1];
      if e.Respond? && e.id == id then Answer(e.response)
      else if e.Store? && ReservedFor(before, e.creator) == Some(id) then NoAnswer
      else LastAnswer(before, id)
  }

  ghost predicate ReservedMatch(s: State, es: seq<Event>) {
    && s.sequenceId == Granted(es)
    && forall c :: ReservedFor(es, c) == if c in s.reserved then Some(s.reserved[c]) else None
  }

  ghost predicate FuturesMatch(s: State, es: seq<Event>) {
    && s.futures.Keys == LiveIds(es)
    && forall id :: id in s.futures ==> s.futures[id] == LastAnswer(es, id)
  }

  ghost predicate ListenersMatch(s: State, es: seq<Event>) {
    forall t :: LastClient(es, t) == if t in s.listeners then Some(s.listeners[t]) else None
  }

  ghost predicate QueuesMatch(s: State, es: seq<Event>) {
    forall c :: (c in s.queues <==> HasHandler(es, c)) && (c in s.queues ==> s.queues[c] == QueueOf(es, c))
  }

  ghost predicate Matches(s: State, es: seq<Event>) {
    ReservedMatch(s, es) && FuturesMatch(s, es) && ListenersMatch(s, es) && QueuesMatch(s, es)
  }

  lemma {:induction false} RunSnoc(s: State, es: seq<Event>, e: Event)
    requires CanRun(s, es + [e])
    ensures CanRun(s, es) && Enabled(Run(s, es), e) && Run(s, es + [e]) == Apply(Run(s, es), e)
    decreases |es|
  {
    if es == [] {
      assert es + [e] == [e] && [e][1..] == [];
    } else {
      assert (es + [e])[1..] == es[1..] + [e];
      RunSnoc(Apply(s, es[0]), es[1..], e);
    }
  }

  lemma Last(es: seq<Event>, e: Event)
    ensures var all := es + [e]; all != [] && all[..|all| - 1] == es && all[|all| - 1] == e
  {
  }

  lemma StepGrants(s: State, es: seq<Event>, e: Event)
    requires Enabled(s, e) && ReservedMatch(s, es) && FuturesMatch(s, es)
    ensures Apply(s, e).sequenceId == Granted(es + [e])
  {
    Last(es, e);
    assert |s.futures| == |s.futures.Keys|;
  }

  lemma StepReserves(s: State, es: seq<Event>, e: Event, c: int)
    requires Enabled(s, e) && ReservedMatch(s, es) && FuturesMatch(s, es)
    ensures var r := Apply(s, e).reserved; ReservedFor(es + [e], c) == if c in r then Some(r[c]) else None
  {
    Last(es, e);
    assert |s.futures| == |s.futures.Keys|;
    if e == Reserve(c) {
      StepGrants(s, es, e);
    }
  }

  lemma StepMatchesReserved(s: State, es: seq<Event>, e: Event)
    requires Enabled(s, e) && ReservedMatch(s, es) && FuturesMatch(s, es)
    ensures ReservedMatch(Apply(s, e), es + [e])
  {
    StepGrants(s, es, e);
    forall c
      ensures var r := Apply(s, e).reserved; ReservedFor(es + [e], c) == if c in r then Some(r[c]) else None
    {
      StepReserves(s, es, e, c);
    }
  }

  lemma StepLives(s: State, es: seq<Event>, e: Event, id: int)
    requires Enabled(s, e) && ReservedMatch(s, es) && FuturesMatch(s, es) && ListenersMatch(s, es)
    ensures id in Apply(s, e).futures <==> id in LiveIds(es + [e])
  {
    Last(es, e);
    assert id in s.futures <==> id in LiveIds(es);
    if e.Store? {
      assert ReservedFor(es, e.creator) == Some(s.reserved[e.creator]);
    }
  }

  lemma StepAnswers(s: State, es: seq<Event>, e: Event, id: int)
    requires Enabled(s, e) && ReservedMatch(s, es) && FuturesMatch(s, es) && id in Apply(s, e).futures
    ensures Apply(s, e).futures[id] == LastAnswer(es + [e], id)
  {
    Last(es, e);
    if e.Store? {
      assert ReservedFor(es, e.creator) == Some(s.reserved[e.creator]);
    }
  }

  lemma FuturesFromParts(s: State, es: seq<Event>)
    requires forall id :: id in s.futures <==> id in LiveIds(es)
    requires forall id :: id in s.futures ==> s.futures[id] == LastAnswer(es, id)
    ensures FuturesMatch(s, es)
  {
    forall id
      ensures id in s.futures.Keys <==> id in LiveIds(es)
    {
      assert id in s.futures.Keys <==> id in s.futures;
    }
    assert s.futures.Keys == LiveIds(es);
  }

  lemma StepMatchesFutures(s: State, es: seq<Event>, e: Event)
    requires Enabled(s, e) && ReservedMatch(s, es) && FuturesMatch(s, es) && ListenersMatch(s, es)
    ensures FuturesMatch(Apply(s, e), es + [e])
  {
    var s1, all := Apply(s, e), es + [e];
    forall id
      ensures id in s1.futures <==> id in LiveIds(all)
    {
      StepLives(s, es, e, id);
    }
    forall id | id in s1.futures
      ensures s1.futures[id] == LastAnswer(all, id)
    {
      StepAnswers(s, es, e, id);
    }
    FuturesFromParts(s1, all);
  }

  lemma StepMatchesListeners(s: State, es: seq<Event>, e: Event)
    requires Enabled(s, e) && ListenersMatch(s, es)
    ensures ListenersMatch(Apply(s, e), es + [e])
  {
    Last(es, e);
  }

  lemma StepQueues(s: State, es: seq<Event>, e: Event, c: int)
    requires Enabled(s, e) && FuturesMatch(s, es) && ListenersMatch(s, es) && QueuesMatch(s, es)
    ensures var q := Apply(s, e).queues;
            (c in q <==> HasHandler(es + [e], c)) && (c in q ==> q[c] == QueueOf(es + [e], c))
  {
    Last(es, e);
    if e.Respond? {
      assert e.id in s.futures <==> e.id in LiveIds(es);
    }
  }

  lemma StepMatchesQueues(s: State, es: seq<Event>, e: Event)
    requires Enabled(s, e) && FuturesMatch(s, es) && ListenersMatch(s, es) && QueuesMatch(s, es)
    ensures QueuesMatch(Apply(s, e), es + [e])
  {
    forall c
      ensures var q := Apply(s, e).queues;
              (c in q <==> HasHandler(es + [e], c)) && (c in q ==> q[c] == QueueOf(es + [e], c))
    {
      StepQueues(s, es, e, c);
    }
  }

  lemma StepMatches(s: State, es: seq<Event>, e: Event)
    requires Enabled(s, e) && Matches(s, es)
    ensures Matches(Apply(s, e), es + [e])
  {
    StepMatchesReserved(s, es, e);
    StepMatchesFutures(s, es, e);
    StepMatchesListeners(s, es, e);
    StepMatchesQueues(s, es, e);
  }

  /** Over every run the objects hold what its events say. */
  lemma {:induction false} RunMatches(es: seq<Event>)
    requires CanRun(INITIAL, es)
    ensures Matches(Run(INITIAL, es), es)
    decreases |es|
  {
    if es != [] {
      var before, e := es[..|es| - 1], es[|es| - 1];
      assert es == before + [e];
      RunSnoc(INITIAL, before, e);
      RunMatches(before);
      StepMatches(Run(INITIAL, before), before, e);
    }
  }

  /**
   * At the end of a run a response for a live id goes to the end of the queue of the client that registered its
   * transaction last, and to nobody else; the id is then used up. Without such a client, or for another id, no queue
   * changes; without a listener a live id keeps the response.
   */
  lemma ResponsesArrive(es: seq<Event>, response: int, id: int, t: int)
    requires CanRun(INITIAL, es + [Respond(response, id, t)])
    ensures CanRun(INITIAL, es)
    ensures var s, s1 := Run(INITIAL, es), Run(INITIAL, es + [Respond(response, id, t)]);
            var client := LastClient(es, t);
            && s1.queues.Keys == s.queues.Keys
            && (forall c :: c in s.queues ==>
                  s1.queues[c] == s.queues[c] + if id in LiveIds(es) && client == Some(c) then [response] else [])
            && (id in LiveIds(es) && client == None ==> id in s1.futures && s1.futures[id] == Answer(response))
            && (client.Some? ==> id !in s1.futures)
  {
    var e := Respond(response, id, t);
    RunSnoc(INITIAL, es, e);
    RunMatches(es);
    RunMatches(es + [e]);
    Last(es, e);
    forall c | c in Run(INITIAL, es).queues
      ensures Run(INITIAL, es + [e]).queues[c] ==
              Run(INITIAL, es).queues[c] + if id in LiveIds(es) && LastClient(es, t) == Some(c) then [response] else []
    {
      assert HasHandler(es + [e], c);
    }
  }

  /** Whatever a run does, what a client's handler queues is what its events say, and it is fetched from the front. */
  lemma QueueIsHistory(es: seq<Event>, client: int)
    requires CanRun(INITIAL, es)
    ensures var s := Run(INITIAL, es);
            (client in s.queues <==> HasHandler(es, client)) && (client in s.queues ==> s.queues[client] == QueueOf(es, client))
  {
    RunMatches(es);
  }
}
