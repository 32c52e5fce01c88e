/** `FutureFactory` with the futures, listeners and client handlers it works on. */
module FutureFactory {
  import opened Platform
  import opened IdRing
  import opened IdAllocators
  import opened FutureModel

  class Future {
    const sequenceId: int
    var answer: Answer

    constructor (sequenceId: int)
      ensures this.sequenceId == sequenceId && answer == NoAnswer
    {
      this.sequenceId, answer := sequenceId, NoAnswer;
    }

    /** Takes a response over; the one held before, if any, is destroyed. */
    method SetResponse(response: int) returns (ghost gone: multiset<int>)
      modifies this
      ensures answer == Answer(response) && gone == HeldBy(old(answer))
    {
      gone := HeldBy(answer);
      answer := Answer(response);
    }

    method DetachResponse()
      modifies this
      ensures answer == NoAnswer
    {
      answer := NoAnswer;
    }
  }

  class FutureFactory {
    const ids: SequenceIds
    var futures: map<int, Future>
    var listeners: map<int, int>
    var clients: map<int, seq<int>>  // what each client's handler queues; module ResponseQueue has its locking
    ghost var s: State

    ghost predicate Valid()
      reads this, ids, futures.Values
    {
      Inv(s) && Mirrored()
    }

    /** The objects hold what `s` says. */
    ghost predicate Mirrored()
      reads this, ids, futures.Values
    {
      && ids.sequenceId == s.sequenceId && listeners == s.listeners && clients == s.queues
      && futures.Keys == s.futures.Keys
      && (forall id :: id in futures ==> futures[id].sequenceId == id && futures[id].answer == s.futures[id])
    }

    constructor ()
      ensures Valid() && s == INITIAL && fresh(ids)
    {
      ids := new SequenceIds();
      futures, listeners, clients, s := map[], map[], map[], INITIAL;
      new;
      InitialInv();
    }

    /** The search, short of the counter's end: it finds the next number. */
    method NextId() returns (id: int)
      requires ids.sequenceId == s.sequenceId < LLONG_MAX && IdsAreDistinct(s) && futures.Keys == s.futures.Keys
      modifies ids
      ensures ids.sequenceId == old(ids.sequenceId) + if id == -1 then 0 else 1
      ensures if |futures.Keys| > 1024 then id == -1 else id == ids.sequenceId
    {
      ghost var probes;
      id, probes := ids.FindSequenceId(futures.Keys);
      if id != -1 {
        NextIdIsFirstFree(s, id, probes);
      }
    }

    /** The first lock of `CreateFuture`. */
    method FindSequenceId(ghost creator: int) returns (id: int)
      requires Valid() && Enabled(s, Reserve(creator))
      modifies this`s, ids
      ensures Valid() && s == Apply(old(s), Reserve(creator))
      ensures ids.sequenceId == old(ids.sequenceId) + if id == -1 then 0 else 1
      ensures if |futures| > 1024 then id == -1 && s.reserved == old(s).reserved
              else id == ids.sequenceId && s.reserved == old(s).reserved[creator := id]
    {
      StepKeepsInv(s, Reserve(creator));
      assert |futures| == |futures.Keys| && |s.futures| == |s.futures.Keys|;
      id := NextId();
      s := Apply(s, Reserve(creator));
    }

    /** The second lock of `CreateFuture`; other calls may have run in between. */
    method AddFuture(id: int, ghost creator: int)
      requires Valid() && creator in s.reserved && s.reserved[creator] == id
      modifies this
      ensures Valid() && s == Apply(old(s), Store(creator))
      ensures id in futures && futures == old(futures)[id := futures[id]] && fresh(futures[id]) && futures[id].answer == NoAnswer
      ensures listeners == old(listeners) && clients == old(clients)
    {
      StepKeepsInv(s, Store(creator));
      var future := new Future(id);
      futures := futures[id := future];
      s := Apply(s, Store(creator));
    }

    method DeleteFuture(id: int)
      requires Valid()
      modifies this
      ensures Valid() && s == Apply(old(s), Delete(id))
      ensures futures == old(futures) - {id} && listeners == old(listeners) && clients == old(clients)
      ensures s.destroyed == old(s.destroyed) +
                             if id in old(futures) && old(futures[id].answer).Answer? then multiset{old(futures[id].answer).response}
                             else multiset{}
    {
      StepKeepsInv(s, Delete(id));
      s := Apply(s, Delete(id));
      if id in futures {
        futures := futures - {id};
      }
    }

    method RegisterListener(client: int, t: int)
      requires Valid()
      modifies this
      ensures Valid() && s == Apply(old(s), Register(t, client))
      ensures listeners == old(listeners)[t := client] && futures == old(futures) && clients == old(clients)
    {
      StepKeepsInv(s, Register(t, client));
      listeners := listeners[t := client];
      s := Apply(s, Register(t, client));
    }

    method UnregisterListener(t: int)
      requires Valid()
      modifies this
      ensures Valid() && s == Apply(old(s), Unregister(t))
      ensures listeners == old(listeners) - {t} && futures == old(futures) && clients == old(clients)
    {
      StepKeepsInv(s, Unregister(t));
      listeners := listeners - {t};
      s := Apply(s, Unregister(t));
    }

    method RegisterAsyncHandler(client: int)
      requires Valid()
      modifies this
      ensures Valid() && s == if client in old(s).queues then old(s) else Apply(old(s), AddHandler(client))
      ensures clients == if client in old(clients) then old(clients) else old(clients)[client := []]
      ensures futures == old(futures) && listeners == old(listeners)
    {
      if client in clients {
        return;
      }
      StepKeepsInv(s, AddHandler(client));
      clients := clients[client := []];
      s := Apply(s, AddHandler(client));
    }

    /** The handler's destructor destroys what is still queued. */
    method RemoveClientListenerHandler(client: int)
      requires Valid()
      modifies this
      ensures Valid() && s == Apply(old(s), RemoveHandler(client))
      ensures clients == old(clients) - {client} && futures == old(futures) && listeners == old(listeners)
      ensures s.destroyed == old(s.destroyed) + if client in old(clients) then multiset(old(clients)[client]) else multiset{}
    {
      StepKeepsInv(s, RemoveHandler(client));
      s := Apply(s, RemoveHandler(client));
      if client in clients {
        clients := clients - {client};
      }
    }

    /** `FutureListener::OnReply` down to the client's handler. */
    method OnReply(future: Future, client: int)
      modifies this`clients
      ensures clients == if future.answer.Answer? && client in old(clients)
                         then old(clients)[client := old(clients)[client] + [future.answer.response]] else old(clients)
    {
      if !future.answer.Answer? {
        return;
      }
      if client !in clients {
        return;
      }
      clients := clients[client := clients[client] + [future.answer.response]];
    }

    method SetResponse(id: int, response: int)
      requires Mirrored() && id in futures
      modifies this`s, futures[id]
      ensures Mirrored() && futures[id].answer == Answer(response)
      ensures s == FutureModel.SetResponse(old(s), response, id)
    {
      ghost var gone := futures[id].SetResponse(response);
      s := FutureModel.SetResponse(s, response, id);
    }

    /** OnReply, DetachResponse and DeleteFuture. */
    method Deliver(id: int, client: int)
      requires Mirrored() && id in futures && futures[id].answer.Answer?
      modifies this`s, this`futures, this`clients, futures[id]
      ensures Mirrored()
      ensures s == FutureModel.Deliver(old(s), old(futures[id].answer).response, id, client)
      ensures futures == old(futures) - {id} && old(futures[id]).answer == NoAnswer
      ensures clients == if client in old(clients)
                         then old(clients)[client := old(clients)[client] + [old(futures[id].answer).response]] else old(clients)
    {
      var future := futures[id];
      s := FutureModel.Deliver(s, future.answer.response, future.sequenceId, client);
      OnReply(future, client);
      future.DetachResponse();
      futures := futures - {future.sequenceId};
    }

    /** Hands a response over to the future it belongs to, and on to the listener of its transaction. */
    method ProcessResponse(response: int, id: int, t: int) returns (ret: RetCode)
      requires Valid() && Enabled(s, Respond(response, id, t))
      modifies this, futures.Values
      ensures Valid() && (s, ret) == FutureModel.ProcessResponse(old(s), response, id, t)
      ensures ret == if id !in old(futures) then NullParam else if t !in listeners then NoListenerFound else Success
      ensures listeners == old(listeners)
      ensures futures == if ret.Success? then old(futures) - {id} else old(futures)
      ensures forall j :: j in old(futures) ==>
                old(futures)[j].answer == if j != id then old(futures[j].answer) else if ret.Success? then NoAnswer else Answer(response)
      ensures clients == if ret.Success? && listeners[t] in old(clients)
                         then old(clients)[listeners[t] := old(clients)[listeners[t]] + [response]] else old(clients)
      ensures s.destroyed == old(s.destroyed) +
                             if id in old(futures) && old(futures[id].answer).Answer? then multiset{old(futures[id].answer).response}
                             else multiset{}
    {
      StepKeepsInv(s, Respond(response, id, t));
      if id !in futures {
        return NullParam;
      }
      SetResponse(id, response);
      if t !in listeners {
        return NoListenerFound;
      }
      Deliver(id, listeners[t]);
      return Success;
    }
  }
}
