/** The engine's four searches for an id that is not in use. */
module IdAllocators {
  import opened Platform
  import opened IdRing

  const LLONG_MAX: int := 0x7FFF_FFFF_FFFF_FFFF

  /** `++x` on a two's complement atomic whose largest value is `max`. */
  function Increment(x: int, max: int): int {
    if x == max then -max - 1 else x + 1
  }

  /** With more than this many futures no sequence id is given out. */
  const MAX_NUM_FUTURES := 1024

  /** `FutureFactory::FindSequenceId`. */
  class SequenceIds {
    const INVALID_SEQUENCE_ID := -1
    const MIN_SEQUENCE_ID := 1

    var sequenceId: int

    constructor ()
      ensures sequenceId == 0
    {
      sequenceId := 0;
    }

    method FindSequenceId(futures: set<int>) returns (id: int, ghost probes: nat)
      requires Cursor(sequenceId, MIN_SEQUENCE_ID, LLONG_MAX)
      modifies this
      ensures Cursor(sequenceId, MIN_SEQUENCE_ID, LLONG_MAX)
      ensures |futures| > MAX_NUM_FUTURES ==> id == INVALID_SEQUENCE_ID && sequenceId == old(sequenceId)
      ensures |futures| <= MAX_NUM_FUTURES ==>
                id == sequenceId && FirstFree(old(sequenceId), id, probes, futures, MIN_SEQUENCE_ID, LLONG_MAX)
    {
      probes := 0;
      if |futures| > MAX_NUM_FUTURES {
        return INVALID_SEQUENCE_ID, 0;
      }
      while true
        invariant Cursor(sequenceId, MIN_SEQUENCE_ID, LLONG_MAX)
        invariant probes <= |futures| && AllUsed(old(sequenceId), probes, futures, MIN_SEQUENCE_ID, LLONG_MAX)
        invariant sequenceId == Nth(old(sequenceId), probes, MIN_SEQUENCE_ID, LLONG_MAX)
        decreases |futures| - probes
      {
        sequenceId := Increment(sequenceId, LLONG_MAX);
        if sequenceId < MIN_SEQUENCE_ID {
          sequenceId := MIN_SEQUENCE_ID;
        }
        probes := probes + 1;
        if sequenceId !in futures {
          return sequenceId, probes;
        }
        PassedAreUsed(old(sequenceId), probes, futures, MIN_SEQUENCE_ID, LLONG_MAX);
      }
    }
  }

  /** `FindValidClientId`. */
  class ClientIds {
    const MAX_NUM_CLIENTS := 1024
    const INVALID_CLIENT_ID := -1
    const STARTING_CLIENT_ID := 1

    var clientIdAtomic: int

    constructor ()
      ensures clientIdAtomic == 0
    {
      clientIdAtomic := 0;
    }

    method FindValidClientId(adapters: set<int>) returns (id: int, ghost probes: nat)
      requires Cursor(clientIdAtomic, STARTING_CLIENT_ID, INT_MAX)
      modifies this
      ensures Cursor(clientIdAtomic, STARTING_CLIENT_ID, INT_MAX)
      ensures |adapters| > MAX_NUM_CLIENTS ==> id == INVALID_CLIENT_ID && clientIdAtomic == old(clientIdAtomic)
      ensures |adapters| <= MAX_NUM_CLIENTS ==>
                id == clientIdAtomic && FirstFree(old(clientIdAtomic), id, probes, adapters, STARTING_CLIENT_ID, INT_MAX)
    {
      probes := 0;
      if |adapters| > MAX_NUM_CLIENTS {
        return INVALID_CLIENT_ID, 0;
      }
      while true
        invariant Cursor(clientIdAtomic, STARTING_CLIENT_ID, INT_MAX)
        invariant probes <= |adapters| && AllUsed(old(clientIdAtomic), probes, adapters, STARTING_CLIENT_ID, INT_MAX)
        invariant clientIdAtomic == Nth(old(clientIdAtomic), probes, STARTING_CLIENT_ID, INT_MAX)
        decreases |adapters| - probes
      {
        clientIdAtomic := Increment(clientIdAtomic, INT_MAX);
        if clientIdAtomic < STARTING_CLIENT_ID {
          clientIdAtomic := STARTING_CLIENT_ID;
        }
        probes := probes + 1;
        if clientIdAtomic !in adapters {
          return clientIdAtomic, probes;
        }
        PassedAreUsed(old(clientIdAtomic), probes, adapters, STARTING_CLIENT_ID, INT_MAX);
      }
    }
  }

  /** With more than this many sessions no session id is given out. */
  const MAXIMUM_NUMBER_OF_SESSION := 100

  /** The session ids of `ClientFactory`. */
  class SessionIds {
    const INVALID_SESSION_ID := -1
    const AIE_SESSION_ID_BEGIN := 0

    var sessionId: int

    constructor ()
      ensures sessionId == 0
    {
      sessionId := AIE_SESSION_ID_BEGIN;
    }

    /** What is left of the client once the service has died: the table of sessions stays as it is. */
    method ResetClient()
      modifies this
      ensures sessionId == INVALID_SESSION_ID && Cursor(sessionId, AIE_SESSION_ID_BEGIN, INT_MAX)
    {
      sessionId := INVALID_SESSION_ID;
    }

    method GenerateSessionId(sessionInfos: set<int>) returns (id: int, ghost probes: nat)
      requires Cursor(sessionId, AIE_SESSION_ID_BEGIN, INT_MAX)
      modifies this
      ensures Cursor(sessionId, AIE_SESSION_ID_BEGIN, INT_MAX)
      ensures |sessionInfos| > MAXIMUM_NUMBER_OF_SESSION ==> id == INVALID_SESSION_ID && sessionId == old(sessionId)
      ensures |sessionInfos| <= MAXIMUM_NUMBER_OF_SESSION ==>
                id == sessionId && FirstFree(old(sessionId), id, probes, sessionInfos, AIE_SESSION_ID_BEGIN, INT_MAX)
    {
      probes := 0;
      if |sessionInfos| > MAXIMUM_NUMBER_OF_SESSION {
        return INVALID_SESSION_ID, 0;
      }
      while true
        invariant Cursor(sessionId, AIE_SESSION_ID_BEGIN, INT_MAX)
        invariant probes <= |sessionInfos| && AllUsed(old(sessionId), probes, sessionInfos, AIE_SESSION_ID_BEGIN, INT_MAX)
        invariant sessionId == Nth(old(sessionId), probes, AIE_SESSION_ID_BEGIN, INT_MAX)
        decreases |sessionInfos| - probes
      {
        sessionId := Increment(sessionId, INT_MAX);
        if sessionId < AIE_SESSION_ID_BEGIN {
          sessionId := AIE_SESSION_ID_BEGIN;
        }
        probes := probes + 1;
        if sessionId !in sessionInfos {
          return sessionId, probes;
        }
        PassedAreUsed(old(sessionId), probes, sessionInfos, AIE_SESSION_ID_BEGIN, INT_MAX);
      }
    }
  }

  /**
   * `GenerateSessionId` returns 0, which the interface documents as undefined, exactly when 0 is free and the search
   * starts anew after a reset, or finds every id after the last one up to INT_MAX in use.
   */
  lemma ZeroSessionIff(last: int, sessionInfos: set<int>, id: int, probes: nat)
    requires Cursor(last, 0, INT_MAX) && FirstFree(last, id, probes, sessionInfos, 0, INT_MAX)
    ensures id == 0 <==>
            0 !in sessionInfos && (last == -1 || forall j :: last < j <= INT_MAX ==> j in sessionInfos)
  {
    var m := if last == -1 then 1 else INT_MAX - last + 1;
    NthClosed(last, m, 0, INT_MAX);
    ReturnsNthIff(last, id, probes, sessionInfos, 0, INT_MAX, m);
    if last >= 0 {
      AllAboveUsed(last, sessionInfos);
    }
  }

  lemma AllAboveUsed(last: int, sessionInfos: set<int>)
    requires 0 <= last <= INT_MAX
    ensures AllUsed(last, INT_MAX - last, sessionInfos, 0, INT_MAX) <==>
            forall j :: last < j <= INT_MAX ==> j in sessionInfos
  {
    forall i | 1 <= i <= INT_MAX - last
      ensures Nth(last, i, 0, INT_MAX) == last + i
    {
      NthClosed(last, i, 0, INT_MAX);
    }
    if AllUsed(last, INT_MAX - last, sessionInfos, 0, INT_MAX) {
      forall j | last < j <= INT_MAX
        ensures j in sessionInfos
      {
        assert Nth(last, j - last, 0, INT_MAX) == j;
      }
    }
  }

  /**
   * What the caller can rely on: some table of sessions yields 0 exactly after a reset, and when at most 100 larger
   * ids are left.
   */
  lemma ZeroSessionPossibleIff(last: int)
    requires Cursor(last, 0, INT_MAX)
    ensures CanReturn(last, 0, MAXIMUM_NUMBER_OF_SESSION, 0, INT_MAX) <==>
            last == -1 || last >= INT_MAX - MAXIMUM_NUMBER_OF_SESSION
  {
    CanReturnExactly(last, 0, MAXIMUM_NUMBER_OF_SESSION, 0, INT_MAX);
  }

  /** The first session after the service has died gets the undefined id, unless a session still has it. */
  method FirstAfterReset(client: SessionIds, sessionInfos: set<int>) returns (id: int)
    requires |sessionInfos| <= MAXIMUM_NUMBER_OF_SESSION
    modifies client
    ensures id == 0 <==> 0 !in sessionInfos
  {
    ghost var probes;
    client.ResetClient();
    id, probes := client.GenerateSessionId(sessionInfos);
    ZeroSessionIff(-1, sessionInfos, id, probes);
  }

  /** What `shmget` answers: a new segment, `EEXIST`, or another error. */
  datatype Probe = Created(shmId: nat) | Exists | Refused

  /** `AcquireShmSegment`; `answer(i, key)` is what the `i`-th call of `shmget` answers when it asks for `key`. */
  class ShmKeys {
    const SHM_KEY_START := 200000
    const SHM_KEY_END := 300000

    var shmKey: int

    constructor ()
      ensures shmKey == SHM_KEY_START
    {
      shmKey := SHM_KEY_START;
    }

    ghost predicate Valid()
      reads this
    {
      SHM_KEY_START <= shmKey < SHM_KEY_END
    }

    /** The key that call `i` of a search from `from` asks for. */
    ghost function KeyAt(from: int, i: nat): int {
      Nth(from - 1, i + 1, SHM_KEY_START, SHM_KEY_END - 1)
    }

    method AcquireShmSegment(answer: (nat, int) -> Probe) returns (shmId: int, ghost calls: nat)
      requires Valid()
      modifies this
      ensures Valid() && calls <= SHM_KEY_END - SHM_KEY_START
      ensures forall i :: 0 <= i < calls ==> answer(i, KeyAt(old(shmKey), i)).Exists?
      ensures shmId >= 0 ==> calls < SHM_KEY_END - SHM_KEY_START && answer(calls, KeyAt(old(shmKey), calls)) == Created(shmId)
      ensures shmId >= 0 ==> shmKey == Succ(KeyAt(old(shmKey), calls), SHM_KEY_START, SHM_KEY_END - 1)
      ensures shmId < 0 ==> shmId == -1 && shmKey == KeyAt(old(shmKey), calls)
      ensures shmId < 0 ==> calls == SHM_KEY_END - SHM_KEY_START || answer(calls, KeyAt(old(shmKey), calls)).Refused?
    {
      calls := 0;
      var attempts := SHM_KEY_END - SHM_KEY_START;
      assert Nth(shmKey - 1, 0, SHM_KEY_START, SHM_KEY_END - 1) == shmKey - 1;
      while !answer(SHM_KEY_END - SHM_KEY_START - attempts, shmKey).Created?
        invariant attempts == SHM_KEY_END - SHM_KEY_START - calls > 0
        invariant Valid() && shmKey == KeyAt(old(shmKey), calls)
        invariant forall i :: 0 <= i < calls ==> answer(i, KeyAt(old(shmKey), i)).Exists?
        decreases attempts
      {
        if !answer(SHM_KEY_END - SHM_KEY_START - attempts, shmKey).Exists? {
          return -1, calls;
        }
        shmKey := shmKey + 1;
        if shmKey >= SHM_KEY_END {
          shmKey := SHM_KEY_START;
        }
        calls := calls + 1;
        attempts := attempts - 1;
        if attempts <= 0 {
          return -1, calls;
        }
      }
      shmId := answer(SHM_KEY_END - SHM_KEY_START - attempts, shmKey).shmId;
      shmKey := shmKey + 1;
      if shmKey >= SHM_KEY_END {
        shmKey := SHM_KEY_START;
      }
    }

    /** A search that reports exhaustion has found every key of the range taken, and ends where it began. */
    lemma ExhaustedMeansAllTaken(from: int, key: int, answer: (nat, int) -> Probe) returns (i: nat)
      requires SHM_KEY_START <= from < SHM_KEY_END && SHM_KEY_START <= key < SHM_KEY_END
      requires forall i :: 0 <= i < SHM_KEY_END - SHM_KEY_START ==> answer(i, KeyAt(from, i)).Exists?
      ensures i < SHM_KEY_END - SHM_KEY_START && answer(i, key).Exists?
      ensures KeyAt(from, SHM_KEY_END - SHM_KEY_START) == from
    {
      var k := NthCovers(from - 1, key, SHM_KEY_START, SHM_KEY_END - 1);
      i := k - 1;
      assert KeyAt(from, i) == key;
      NthClosed(from - 1, SHM_KEY_END - SHM_KEY_START, SHM_KEY_START, SHM_KEY_END - 1);
    }
  }
}
