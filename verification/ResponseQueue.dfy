/** `ClientListenerHandler` and its `Event`: the critical sections as code, between the points where a thread blocks. */
module ResponseQueue {
  import opened ResponseQueueModel

  class Event {
    var flag: bool

    constructor ()
      ensures !flag
    {
      flag := false;
    }

    /** Sets the event and wakes who waits; tells whether it was not set before. */
    method Signal() returns (first: bool)
      modifies this
      ensures flag && first == !old(flag)
    {
      var signalled := flag;
      flag := true;
      return !signalled;
    }

    method Reset() returns (wasSet: bool)
      modifies this
      ensures !flag && wasSet == old(flag)
    {
      wasSet := flag;
      flag := false;
    }
  }

  /** Two statements of thread `t` in a row. */
  ghost function Twice(s: State, t: int): State
    requires Enabled(s, Step(t)) && Enabled(Apply(s, Step(t)), Step(t))
  {
    Apply(Apply(s, Step(t)), Step(t))
  }

  class ClientListenerHandler {
    const event: Event
    ghost const worker: int
    var responses: seq<int>
    ghost var s: State

    ghost predicate Valid()
      reads this, event
    {
      responses == s.responses && event.flag == s.flag && Inv(s, worker)
    }

    constructor (ghost worker: int, ghost start: State)
      requires Starts(start, {worker})
      ensures Valid() && s == start && this.worker == worker && fresh(event)
    {
      event := new Event();
      responses, s, this.worker := [], start, worker;
    }

    /** `AddCallbackRecord` with the mutex held. */
    method AddCallbackRecord(response: int, ghost t: int)
      requires Valid() && t in s.threads && s.threads[t] == Inside(response)
      modifies this, event
      ensures Valid() && Enabled(old(s), Step(t)) && Enabled(Apply(old(s), Step(t)), Step(t))
      ensures s == Twice(old(s), t) && s.threads[t].Leaving?
      ensures responses == old(responses) + [response] && s.added == old(s.added) + [response] && s.fetched == old(s.fetched)
      ensures event.flag == (old(event.flag) || old(responses) == [])
    {
      ghost var first := Apply(s, Step(t));
      StepKeepsInv(s, Step(t), worker);
      StepKeepsInv(first, Step(t), worker);
      s := Twice(s, t);
      var empty := responses == [];
      responses := responses + [response];
      if !empty {
        return;
      }
      var _ := event.Signal();
    }

    /** Takes the front, and resets the event if that was the last. */
    method PopFront(ghost t: int) returns (response: int)
      requires Valid() && t in s.threads && (s.threads[t].Looking? || s.threads[t].Popping?) && responses != []
      modifies this, event
      ensures Valid() && Enabled(old(s), Step(t)) && Enabled(Apply(old(s), Step(t)), Step(t))
      ensures s == Twice(old(s), t) && s.threads[t].Returning?
      ensures s.fetched == old(s).fetched + [response] && old(responses) == [response] + responses && s.added == old(s.added)
      ensures event.flag == (old(event.flag) && responses != [])
    {
      ghost var first := Apply(s, Step(t));
      StepKeepsInv(s, Step(t), worker);
      StepKeepsInv(first, Step(t), worker);
      s := Twice(s, t);
      response := responses[0];
      responses := responses[1..];
      if responses == [] {
        var _ := event.Reset();
      }
    }

    /** The first critical section of `FetchCallbackRecord`. */
    method FetchFirst(ghost t: int) returns (found: bool, response: int)
      requires Valid() && t in s.threads && s.threads[t].Looking?
      modifies this, event
      ensures Valid() && (found <==> old(responses) != [])
      ensures found ==> s.threads.Keys == old(s).threads.Keys && s.threads[t].Returning?
      ensures found ==> s.fetched == old(s).fetched + [response] && old(responses) == [response] + responses
      ensures found ==> event.flag == (old(event.flag) && responses != [])
      ensures !found ==> responses == old(responses) && event.flag == old(event.flag) && s.fetched == old(s.fetched)
      ensures s.added == old(s.added)
      ensures !found ==> s == Apply(old(s), Step(t)) && s.threads[t].GivingUp?
    {
      response := 0;
      if responses != [] {
        response := PopFront(t);
        return true, response;
      }
      StepKeepsInv(s, Step(t), worker);
      s := Apply(s, Step(t));
      return false, response;
    }

    /** The second, after the wait: the worker has seen a response without the mutex, and there still is one. */
    method FetchSecond(ghost t: int) returns (response: int)
      requires Valid() && t in s.threads && s.threads[t].Popping?
      modifies this, event
      ensures Valid() && s.threads.Keys == old(s).threads.Keys && s.threads[t].Returning?
      ensures s.fetched == old(s).fetched + [response] && old(responses) == [response] + responses && s.added == old(s.added)
      ensures event.flag == (old(event.flag) && responses != [])
    {
      assert IsWorker(s.threads[t]);
      response := PopFront(t);
    }
  }
}
