/** Ids handed out in a circle: the successor in `[lo, hi]`, and what a search along the circle visits. */
module IdRing {

  /** The id after `c`; a cursor may also stand just below the range. */
  function Succ(c: int, lo: int, hi: int): int {
    if c >= hi then lo else c + 1
  }

  predicate Cursor(c: int, lo: int, hi: int) {
    lo <= hi && lo - 1 <= c <= hi
  }

  function Size(lo: int, hi: int): int {
    hi - lo + 1
  }

  /** The `k`-th id after `c`. */
  ghost function Nth(c: int, k: nat, lo: int, hi: int): int {
    if k == 0 then c else Succ(Nth(c, k - 1, lo, hi), lo, hi)
  }

  lemma {:induction false} NthClosed(c: int, k: nat, lo: int, hi: int)
    requires Cursor(c, lo, hi) && k <= Size(lo, hi)
    ensures Nth(c, k, lo, hi) == if c + k <= hi then c + k else c + k - Size(lo, hi)
  {
    if k > 0 {
      NthClosed(c, k - 1, lo, hi);
    }
  }

  /** Once around, no id comes twice. */
  lemma NthInjective(c: int, j: nat, k: nat, lo: int, hi: int)
    requires Cursor(c, lo, hi) && 1 <= j < k <= Size(lo, hi)
    ensures Nth(c, j, lo, hi) != Nth(c, k, lo, hi)
  {
    NthClosed(c, j, lo, hi);
    NthClosed(c, k, lo, hi);
  }

  /** Once around, every id comes. */
  lemma NthCovers(c: int, id: int, lo: int, hi: int) returns (k: nat)
    requires Cursor(c, lo, hi) && lo <= id <= hi
    ensures 1 <= k <= Size(lo, hi) && Nth(c, k, lo, hi) == id
  {
    k := if id > c then id - c else id - c + Size(lo, hi);
    NthClosed(c, k, lo, hi);
  }

  /** The first `k` ids after `c` are all in use. */
  ghost predicate AllUsed(c: int, k: nat, used: set<int>, lo: int, hi: int) {
    forall j :: 1 <= j <= k ==> Nth(c, j, lo, hi) in used
  }

  /** Pigeonhole: a search that has passed `k` used ids proves that `k` ids are in use. */
  lemma {:induction false} PassedAreUsed(c: int, k: nat, used: set<int>, lo: int, hi: int)
    requires Cursor(c, lo, hi) && k <= Size(lo, hi)
    requires AllUsed(c, k, used, lo, hi)
    ensures k <= |used|
  {
    if k > 0 {
      var last := Nth(c, k, lo, hi);
      forall j | 1 <= j <= k - 1
        ensures Nth(c, j, lo, hi) in used - {last}
      {
        NthInjective(c, j, k, lo, hi);
      }
      PassedAreUsed(c, k - 1, used - {last}, lo, hi);
    }
  }

  /** `id` is the first id after `c` that is not in use. */
  ghost predicate FirstFree(c: int, id: int, k: nat, used: set<int>, lo: int, hi: int) {
    && 1 <= k <= |used| + 1
    && lo <= id <= hi
    && id == Nth(c, k, lo, hi) && id !in used
    && AllUsed(c, k - 1, used, lo, hi)
  }

  lemma NextOrUsed(c: int, id: int, k: nat, used: set<int>, lo: int, hi: int)
    requires FirstFree(c, id, k, used, lo, hi)
    ensures id == Succ(c, lo, hi) || Succ(c, lo, hi) in used
  {
    assert Nth(c, 1, lo, hi) == Succ(c, lo, hi);
  }

  // ---- Which id a search returns ----

  /** The first `n` ids after `c`. */
  ghost function Passed(c: int, n: nat, lo: int, hi: int): set<int> {
    if n == 0 then {} else Passed(c, n - 1, lo, hi) + {Nth(c, n, lo, hi)}
  }

  lemma {:induction false} PassedMembers(c: int, n: nat, lo: int, hi: int)
    ensures AllUsed(c, n, Passed(c, n, lo, hi), lo, hi)
  {
    if n > 0 {
      PassedMembers(c, n - 1, lo, hi);
      forall j | 1 <= j <= n
        ensures Nth(c, j, lo, hi) in Passed(c, n, lo, hi)
      {
        assert j < n ==> Nth(c, j, lo, hi) in Passed(c, n - 1, lo, hi);
      }
    }
  }

  lemma {:induction false} LaterNotPassed(c: int, n: nat, m: nat, lo: int, hi: int)
    requires Cursor(c, lo, hi) && n < m <= Size(lo, hi)
    ensures Nth(c, m, lo, hi) !in Passed(c, n, lo, hi)
  {
    if n > 0 {
      LaterNotPassed(c, n - 1, m, lo, hi);
      NthInjective(c, n, m, lo, hi);
    }
  }

  lemma {:induction false} PassedCount(c: int, n: nat, lo: int, hi: int)
    requires Cursor(c, lo, hi) && n <= Size(lo, hi)
    ensures |Passed(c, n, lo, hi)| == n
  {
    if n > 0 {
      PassedCount(c, n - 1, lo, hi);
      LaterNotPassed(c, n - 1, n, lo, hi);
    }
  }

  lemma NotPassed(c: int, id: int, k: nat, used: set<int>, lo: int, hi: int, m: nat)
    requires FirstFree(c, id, k, used, lo, hi) && 1 <= m && Nth(c, m, lo, hi) == id
    ensures k <= m
  {
  }

  /** A search that ends has not gone round: the ids it passed are different. */
  lemma SearchIsShort(c: int, id: int, k: nat, used: set<int>, lo: int, hi: int)
    requires Cursor(c, lo, hi) && FirstFree(c, id, k, used, lo, hi)
    ensures k <= Size(lo, hi)
  {
    var m := NthCovers(c, id, lo, hi);
    NotPassed(c, id, k, used, lo, hi, m);
  }

  /** The search returns the `m`-th id exactly when that is free and all before it are in use. */
  lemma ReturnsNthIff(c: int, id: int, k: nat, used: set<int>, lo: int, hi: int, m: nat)
    requires Cursor(c, lo, hi) && FirstFree(c, id, k, used, lo, hi) && 1 <= m <= Size(lo, hi)
    ensures id == Nth(c, m, lo, hi) <==> Nth(c, m, lo, hi) !in used && AllUsed(c, m - 1, used, lo, hi)
    ensures id == Nth(c, m, lo, hi) ==> k == m
  {
    SearchIsShort(c, id, k, used, lo, hi);
    if k < m {
      NthInjective(c, k, m, lo, hi);
    } else if m < k {
      NthInjective(c, m, k, lo, hi);
    }
  }

  /** Filling the ids before it makes the search return the `m`-th id. */
  lemma FillBefore(c: int, m: nat, lo: int, hi: int) returns (used: set<int>)
    requires Cursor(c, lo, hi) && 1 <= m <= Size(lo, hi)
    ensures |used| == m - 1 && FirstFree(c, Nth(c, m, lo, hi), m, used, lo, hi)
  {
    used := Passed(c, m - 1, lo, hi);
    PassedCount(c, m - 1, lo, hi);
    PassedMembers(c, m - 1, lo, hi);
    LaterNotPassed(c, m - 1, m, lo, hi);
    NthClosed(c, m, lo, hi);
  }

  /** Some table of at most `limit` ids makes the search from `c` return `id`. */
  ghost predicate CanReturn(c: int, id: int, limit: nat, lo: int, hi: int) {
    exists used: set<int>, k: nat :: |used| <= limit && FirstFree(c, id, k, used, lo, hi)
  }

  /** It can return the `m`-th id exactly when the `m - 1` ids before it fit a table. */
  lemma CanReturnIff(c: int, m: nat, limit: nat, lo: int, hi: int)
    requires Cursor(c, lo, hi) && 1 <= m <= Size(lo, hi)
    ensures CanReturn(c, Nth(c, m, lo, hi), limit, lo, hi) <==> m <= limit + 1
  {
    if m <= limit + 1 {
      var used := FillBefore(c, m, lo, hi);
      assert FirstFree(c, Nth(c, m, lo, hi), m, used, lo, hi);
    } else {
      forall used: set<int>, k: nat | |used| <= limit
        ensures !FirstFree(c, Nth(c, m, lo, hi), k, used, lo, hi)
      {
        TooFar(c, m, k, used, lo, hi);
      }
    }
  }

  lemma TooFar(c: int, m: nat, k: nat, used: set<int>, lo: int, hi: int)
    requires Cursor(c, lo, hi) && 1 <= m <= Size(lo, hi) && |used| + 1 < m
    ensures !FirstFree(c, Nth(c, m, lo, hi), k, used, lo, hi)
  {
    if 1 <= k < m {
      NthInjective(c, k, m, lo, hi);
    }
  }

  /** In plain numbers: the ids a search can return are the next `limit + 1`, counted across the wrap-around. */
  lemma CanReturnExactly(c: int, id: int, limit: nat, lo: int, hi: int)
    requires Cursor(c, lo, hi) && limit < Size(lo, hi)
    ensures CanReturn(c, id, limit, lo, hi) <==>
            lo <= id <= hi && (c < id <= c + limit + 1 || id + Size(lo, hi) <= c + limit + 1)
  {
    if CanReturn(c, id, limit, lo, hi) {
      var used: set<int>, k: nat :| |used| <= limit && FirstFree(c, id, k, used, lo, hi);
      NthClosed(c, k, lo, hi);
    } else if lo <= id <= hi {
      var m := NthCovers(c, id, lo, hi);
      NthClosed(c, m, lo, hi);
      CanReturnIff(c, m, limit, lo, hi);
    }
  }
}
