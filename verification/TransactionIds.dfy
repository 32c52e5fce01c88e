/** Packing an adapter id and a session id into a 64-bit transaction id, and taking it apart. */
module TransactionIds {
  import opened Platform

  predicate IsInt32(x: int) {
    -0x8000_0000 <= x <= INT_MAX
  }

  function ToInt64(x: int): (r: int)
    ensures -0x8000_0000_0000_0000 <= r < 0x8000_0000_0000_0000
    ensures (r - x) % 0x1_0000_0000_0000_0000 == 0
  {
    var m := x % 0x1_0000_0000_0000_0000;
    if m < 0x8000_0000_0000_0000 then m else m - 0x1_0000_0000_0000_0000
  }

  /** `GetTransactionId`: the adapter id shifted as an unsigned number, plus the signed session id. */
  function TransactionId(adapterId: int, sessionId: int): int {
    ToInt64((adapterId % 0x1_0000_0000_0000_0000) * 0x1_0000_0000) + sessionId
  }

  /** `GetSessionId`: the low 32 bits as a signed number. */
  function SessionId(transactionId: int): int {
    ToInt32((transactionId % 0x1_0000_0000_0000_0000) % 0x1_0000_0000)
  }

  /** The adapter whose sessions the id lies among. */
  function AdapterId(transactionId: int): int {
    (transactionId + 0x8000_0000) / 0x1_0000_0000
  }

  lemma TransactionIdIsExact(a: int, sid: int)
    requires IsInt32(a)
    ensures TransactionId(a, sid) == a * 0x1_0000_0000 + sid
  {
    var m := a % 0x1_0000_0000_0000_0000;
    assert m == if a >= 0 then a else a + 0x1_0000_0000_0000_0000;
  }

  /** The sum fits `long long` except for the smallest adapter id with a negative session. */
  lemma TransactionIdFits(a: int, sid: int)
    requires IsInt32(a) && IsInt32(sid)
    ensures -0x8000_0000_0000_0000 <= TransactionId(a, sid) < 0x8000_0000_0000_0000 <==> !(a == -0x8000_0000 && sid < 0)
  {
    TransactionIdIsExact(a, sid);
  }

  lemma LowBits(k: int, x: int)
    ensures (k * 0x1_0000_0000 + x) % 0x1_0000_0000 == x % 0x1_0000_0000
  {
  }

  lemma SessionIdOfSum(a: int, sid: int)
    requires IsInt32(sid)
    ensures SessionId(a * 0x1_0000_0000 + sid) == sid
  {
    var t := a * 0x1_0000_0000 + sid;
    var q := t / 0x1_0000_0000_0000_0000;
    assert t % 0x1_0000_0000_0000_0000 == (a - q * 0x1_0000_0000) * 0x1_0000_0000 + sid;
    LowBits(a - q * 0x1_0000_0000, sid);
    Signed(sid);
  }

  lemma Signed(sid: int)
    requires IsInt32(sid)
    ensures ToInt32(sid % 0x1_0000_0000) == sid
  {
    assert sid % 0x1_0000_0000 == if sid >= 0 then sid else sid + 0x1_0000_0000;
  }

  /** Unpacking returns the session id and the adapter id, for every 32-bit pair. */
  lemma PackingRoundTrip(a: int, sid: int)
    requires IsInt32(a) && IsInt32(sid)
    ensures SessionId(TransactionId(a, sid)) == sid
    ensures AdapterId(TransactionId(a, sid)) == a
  {
    TransactionIdIsExact(a, sid);
    SessionIdOfSum(a, sid);
    assert (a * 0x1_0000_0000 + sid) + 0x8000_0000 == a * 0x1_0000_0000 + (sid + 0x8000_0000);
  }

  /** No two pairs share a transaction id. */
  lemma PackingInjective(a: int, sid: int, a': int, sid': int)
    requires IsInt32(a) && IsInt32(sid) && IsInt32(a') && IsInt32(sid')
    requires TransactionId(a, sid) == TransactionId(a', sid')
    ensures a == a' && sid == sid'
  {
    PackingRoundTrip(a, sid);
    PackingRoundTrip(a', sid');
  }
}
