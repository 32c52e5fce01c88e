/** `GetTopK` of the image classification plugin, with the standard heap algorithms it calls. */
module TopK {
  import opened Platform

  /** A label, as the index of its score, and the score. */
  datatype Item = Item(id: int, score: int)

  function Parent(j: nat): nat
    requires j > 0
  {
    (j - 1) / 2
  }

  predicate InOrder(h: seq<Item>, j: nat)
    requires 0 < j < |h|
  {
    h[Parent(j)].score <= h[j].score
  }

  /** A heap under the comparer `x.score > y.score` from cell `lo` on: no child scores less than its parent. */
  predicate HeapFrom(h: seq<Item>, lo: nat) {
    forall j :: 0 < j < |h| && lo <= Parent(j) ==> InOrder(h, j)
  }

  predicate IsHeap(h: seq<Item>) {
    HeapFrom(h, 0)
  }

  predicate Descending(h: seq<Item>) {
    forall i, j :: 0 <= i < j < |h| ==> h[j].score <= h[i].score
  }

  function Swapped(h: seq<Item>, i: nat, j: nat): (r: seq<Item>)
    requires i < |h| && j < |h|
    ensures |r| == |h| && multiset(r) == multiset(h)
    ensures forall k :: 0 <= k < |h| ==> r[k] == h[if k == i then j else if k == j then i else k]
  {
    h[i := h[j]][j := h[i]]
  }

  lemma {:induction false} RootIsLeast(h: seq<Item>, k: nat)
    requires IsHeap(h) && k < |h|
    ensures h[0].score <= h[k].score
  {
    if k > 0 {
      RootIsLeast(h, Parent(k));
      assert InOrder(h, k);
    }
  }

  /** A heap from `at` on, but for the children of `hole`; those still fit under the hole's parent. */
  predicate HoleAbove(h: seq<Item>, at: nat, hole: nat) {
    && at <= hole < |h|
    && (forall j :: 0 < j < |h| && at <= Parent(j) && Parent(j) != hole ==> InOrder(h, j))
    && (hole > 0 && at <= Parent(hole) ==>
          forall j :: 0 < j < |h| && Parent(j) == hole ==> h[Parent(hole)].score <= h[j].score)
  }

  /** A heap but for `hole` under its parent; the children of the hole fit under that parent. */
  predicate HoleBelow(h: seq<Item>, hole: nat) {
    && hole < |h|
    && (forall j :: 0 < j < |h| && j != hole ==> InOrder(h, j))
    && (hole > 0 ==> forall j :: 0 < j < |h| && Parent(j) == hole ==> h[Parent(hole)].score <= h[j].score)
  }

  lemma SinkOne(h: seq<Item>, at: nat, hole: nat, child: nat)
    requires HoleAbove(h, at, hole) && 0 < child < |h| && Parent(child) == hole && h[child].score < h[hole].score
    requires forall j :: 0 < j < |h| && Parent(j) == hole ==> h[child].score <= h[j].score
    ensures HoleAbove(Swapped(h, hole, child), at, child)
  {
    var r := Swapped(h, hole, child);
    forall j | 0 < j < |h| && at <= Parent(j) && Parent(j) != child
      ensures InOrder(r, j)
    {
      if Parent(j) != hole {
        assert InOrder(h, j);
      }
    }
    forall j | 0 < j < |h| && Parent(j) == child
      ensures r[hole].score <= r[j].score
    {
      assert InOrder(h, j);
    }
  }

  lemma RiseOne(h: seq<Item>, hole: nat)
    requires HoleBelow(h, hole) && hole > 0 && h[hole].score < h[Parent(hole)].score
    ensures HoleBelow(Swapped(h, hole, Parent(hole)), Parent(hole))
  {
    var up := Parent(hole);
    var r := Swapped(h, hole, up);
    forall j | 0 < j < |h| && j != up
      ensures InOrder(r, j)
    {
      if j != hole {
        assert InOrder(h, j);
      }
    }
    if up > 0 {
      assert InOrder(h, up);
      forall j | 0 < j < |h| && Parent(j) == up
        ensures r[Parent(up)].score <= r[j].score
      {
        if j != hole {
          assert InOrder(h, j);
        }
      }
    }
  }

  /** Restores the heap from `at` on when only `at` may be out of order with its children. */
  method SiftDown(before: seq<Item>, at: nat) returns (h: seq<Item>)
    requires at < |before| && HeapFrom(before, at + 1)
    ensures HeapFrom(h, at) && multiset(h) == multiset(before)
    ensures |h| == |before|
  {
    h := before;
    var hole: nat := at;
    while 2 * hole + 1 < |h|
      invariant HoleAbove(h, at, hole) && |h| == |before|
      invariant multiset(h) == multiset(before)
      decreases |h| - hole
    {
      var child := 2 * hole + 1;
      if child + 1 < |h| && h[child + 1].score < h[child].score {
        child := child + 1;
      }
      if h[hole].score <= h[child].score {
        return;
      }
      SinkOne(h, at, hole, child);
      h := Swapped(h, hole, child);
      hole := child;
    }
  }

  /** `std::make_heap`. */
  method MakeHeap(s: seq<Item>) returns (h: seq<Item>)
    ensures IsHeap(h) && |h| == |s| && multiset(h) == multiset(s)
  {
    h := s;
    var at: nat := |h|;
    while at > 0
      invariant at <= |h| == |s| && HeapFrom(h, at) && multiset(h) == multiset(s)
    {
      at := at - 1;
      h := SiftDown(h, at);
    }
  }

  /** `std::push_heap`: the last element joins the heap before it. */
  method PushHeap(s: seq<Item>) returns (h: seq<Item>)
    requires |s| > 0 && IsHeap(s[..|s| - 1])
    ensures IsHeap(h) && |h| == |s| && multiset(h) == multiset(s)
  {
    h := s;
    var hole: nat := |h| - 1;
    assert forall j :: 0 < j < hole ==> InOrder(s[..hole], j) ==> InOrder(s, j);
    while hole > 0 && h[hole].score < h[Parent(hole)].score
      invariant HoleBelow(h, hole) && |h| == |s| && multiset(h) == multiset(s)
    {
      RiseOne(h, hole);
      h := Swapped(h, hole, Parent(hole));
      hole := Parent(hole);
    }
  }

  /** `std::pop_heap`: the front goes last, the rest is a heap again. */
  method PopHeap(s: seq<Item>) returns (h: seq<Item>)
    requires |s| > 0 && IsHeap(s)
    ensures |h| == |s| && multiset(h) == multiset(s)
    ensures h[|s| - 1] == s[0] && IsHeap(h[..|s| - 1])
  {
    var last := |s| - 1;
    h := Swapped(s, 0, last);
    assert HeapFrom(h[..last], 1) by {
      assert forall j :: 0 < j < last && 1 <= (j - 1) / 2 ==> InOrder(s, j);
    }
    assert h == h[..last] + [h[last]];
    if last == 0 {
      return;
    }
    var rest := SiftDown(h[..last], 0);
    h := rest + [h[last]];
    assert h[..last] == rest;
  }

  /** `std::sort_heap`: pops until nothing is left, so the least score ends up last. */
  method SortHeap(s: seq<Item>) returns (h: seq<Item>)
    requires IsHeap(s)
    ensures Descending(h) && |h| == |s| && multiset(h) == multiset(s)
  {
    h := s;
    var n := |h|;
    assert h[..n] == h;
    while n > 1
      invariant 0 <= n <= |h| == |s| && multiset(h) == multiset(s)
      invariant IsHeap(h[..n])
      invariant forall i, j :: 0 <= i < j < |h| && n <= j ==> h[j].score <= h[i].score
    {
      var front := h[..n];
      var popped := PopHeap(front);
      assert h == front + h[n..];
      ghost var before := h;
      h := popped + h[n..];
      n := n - 1;
      assert h[..n] == popped[..n];
      forall i, j | 0 <= i < j < |h| && n <= j
        ensures h[j].score <= h[i].score
      {
        if i <= n {
          assert h[i] in multiset(front);
          var k :| 0 <= k < |front| && front[k] == h[i];
          RootIsLeast(front, k);
          assert before[k] == front[k];
        }
      }
    }
  }

  /** The pair made for the score at `index`; the index is stored in 32 bits. */
  function PairAt(data: seq<int>, index: nat): Item
    requires index < |data|
  {
    Item(ToInt32(index), data[index])
  }

  ghost function AllPairs(data: seq<int>): (r: seq<Item>)
    ensures |r| == |data| && forall i :: 0 <= i < |data| ==> r[i] == PairAt(data, i)
  {
    seq(|data|, i requires 0 <= i < |data| => PairAt(data, i))
  }

  ghost function SeenPairs(data: seq<int>, n: nat): multiset<Item>
    requires n <= |data|
  {
    multiset(AllPairs(data)[..n])
  }

  ghost predicate NoneBetter(rest: multiset<Item>, kept: multiset<Item>) {
    forall x, y :: x in kept && y in rest ==> y.score <= x.score
  }

  /** `kept` are some of the pairs `seen`, and no pair left out has a greater score than one kept. */
  ghost predicate BestOf(kept: multiset<Item>, seen: multiset<Item>) {
    kept <= seen && NoneBetter(seen - kept, kept)
  }

  lemma RootIsLeastOfAll(h: seq<Item>)
    requires IsHeap(h) && |h| > 0
    ensures h[0] in multiset(h)
    ensures forall x :: x in multiset(h) ==> h[0].score <= x.score
  {
    forall x | x in multiset(h)
      ensures h[0].score <= x.score
    {
      var i :| 0 <= i < |h| && h[i] == x;
      RootIsLeast(h, i);
    }
  }

  lemma SeenOnce(h: seq<Item>, i: nat, j: nat)
    requires i < j < |h| && multiset(h)[h[i]] == 1
    ensures h[i] != h[j]
  {
    assert h == h[..j] + h[j..];
    assert h[i] in h[..j] && h[j] in h[j..];
    assert multiset(h) == multiset(h[..j]) + multiset(h[j..]);
  }

  ghost predicate AtMost(rest: multiset<Item>, bound: int) {
    forall y :: y in rest ==> y.score <= bound
  }

  /** What was left out is no better than the front of the heap: the heap holds the best. */
  lemma HeapHoldsBest(h: seq<Item>, rest: multiset<Item>, seen: multiset<Item>)
    requires IsHeap(h) && |h| > 0 && multiset(h) + rest == seen && AtMost(rest, h[0].score)
    ensures BestOf(multiset(h), seen)
  {
    RootIsLeastOfAll(h);
    assert seen - multiset(h) == rest;
  }

  /** The least pair gives way to `newcomer`. */
  method ReplaceFront(s: seq<Item>, newcomer: Item) returns (h: seq<Item>)
    requires |s| > 0 && IsHeap(s)
    ensures IsHeap(h) && |h| == |s| && multiset(h) == multiset(s) - multiset{s[0]} + multiset{newcomer}
  {
    h := PopHeap(s);
    var last := |h| - 1;
    assert h == h[..last] + [s[0]];
    h := h[..last];
    assert multiset(h) == multiset(s) - multiset{s[0]};
    h := h + [newcomer];
    assert h[..last] == h[..|h| - 1];
    h := PushHeap(h);
  }

  /** `result` is the `k` best scores with their labels (all, if there are fewer), best first. */
  ghost predicate IsTopK(result: seq<Item>, data: seq<int>, k: nat) {
    && |result| == (if k < |data| then k else |data|)
    && Descending(result)
    && BestOf(multiset(result), SeenPairs(data, |data|))
  }

  /** Up to 2^31 scores labels are indices, so no pair comes twice. */
  lemma {:induction false} PairsAreDistinct(data: seq<int>, n: nat, x: Item)
    requires n <= |data| <= INT_MAX + 1
    ensures SeenPairs(data, n)[x] == if 0 <= x.id < n && x.score == data[x.id] then 1 else 0
  {
    if n > 0 {
      PairsAreDistinct(data, n - 1, x);
      NextPair(data, n - 1);
    }
  }

  /**
   * Up to 2^31 scores a label is the index of its score: labels are in range and distinct, scores are those of their
   * labels, and no score left out exceeds one kept.
   */
  lemma TopKLabels(result: seq<Item>, data: seq<int>, k: nat)
    requires IsTopK(result, data, k) && |data| <= INT_MAX + 1
    ensures forall i :: 0 <= i < |result| ==> 0 <= result[i].id < |data| && result[i].score == data[result[i].id]
    ensures forall i, j :: 0 <= i < j < |result| ==> result[i].id != result[j].id
    ensures forall i :: 0 <= i < |data| && Item(i, data[i]) !in result ==>
              forall j :: 0 <= j < |result| ==> data[i] <= result[j].score
  {
    forall i | 0 <= i < |result|
      ensures 0 <= result[i].id < |data| && result[i].score == data[result[i].id] && multiset(result)[result[i]] == 1
    {
      PairsAreDistinct(data, |data|, result[i]);
      assert result[i] in multiset(result);
    }
    forall i, j | 0 <= i < j < |result|
      ensures result[i].id != result[j].id
    {
      SeenOnce(result, i, j);
    }
    forall i | 0 <= i < |data| && Item(i, data[i]) !in result
      ensures forall j :: 0 <= j < |result| ==> data[i] <= result[j].score
    {
      LeftOutIsNoBetter(result, data, i);
    }
  }

  lemma LeftOutIsNoBetter(result: seq<Item>, data: seq<int>, i: nat)
    requires BestOf(multiset(result), SeenPairs(data, |data|)) && i < |data| <= INT_MAX + 1
    requires Item(i, data[i]) !in result
    ensures forall j :: 0 <= j < |result| ==> data[i] <= result[j].score
  {
    var y := Item(i, data[i]);
    PairsAreDistinct(data, |data|, y);
    assert y !in multiset(result);
    assert y in SeenPairs(data, |data|) - multiset(result);
    forall j | 0 <= j < |result|
      ensures data[i] <= result[j].score
    {
      assert result[j] in multiset(result);
    }
  }

  /** The heap and the rest are the first `n` pairs, and no pair of the rest is better than the front of the heap. */
  ghost predicate Split(h: seq<Item>, rest: multiset<Item>, data: seq<int>, n: nat)
    requires n <= |data|
  {
    |h| > 0 && IsHeap(h) && multiset(h) + rest == SeenPairs(data, n) && AtMost(rest, h[0].score)
  }

  /** One score is considered: it replaces the least kept pair if it is better; the other one joins the rest. */
  method Consider(s: seq<Item>, data: seq<int>, index: nat, ghost rest: multiset<Item>)
    returns (h: seq<Item>, ghost left: multiset<Item>)
    requires index < |data| && Split(s, rest, data, index)
    ensures |h| == |s| && Split(h, left, data, index + 1)
  {
    RootIsLeastOfAll(s);
    NextPair(data, index);
    h := s;
    if h[0].score < data[index] {
      h := ReplaceFront(h, PairAt(data, index));
      left := rest + multiset{s[0]};
      assert h[0] in multiset(h);
    } else {
      left := rest + multiset{PairAt(data, index)};
    }
  }

  /** The first `k` pairs. */
  method TakeFirst(data: seq<int>, k: nat) returns (h: seq<Item>)
    requires k <= |data|
    ensures h == AllPairs(data)[..k]
  {
    h := [];
    var index := 0;
    while index < k
      invariant 0 <= index <= k && h == AllPairs(data)[..index]
    {
      h := h + [PairAt(data, index)];
      index := index + 1;
    }
  }

  /** The rest of the scores, one by one. */
  method ConsiderRest(s: seq<Item>, data: seq<int>) returns (h: seq<Item>)
    requires 0 < |s| <= |data| && IsHeap(s) && multiset(s) == SeenPairs(data, |s|)
    ensures IsHeap(h) && |h| == |s| && BestOf(multiset(h), SeenPairs(data, |data|))
  {
    h := s;
    var index := |s|;
    ghost var rest := multiset{};
    while index < |data|
      invariant |s| <= index <= |data| && |h| == |s| && Split(h, rest, data, index)
    {
      h, rest := Consider(h, data, index, rest);
      index := index + 1;
    }
    HeapHoldsBest(h, rest, SeenPairs(data, |data|));
  }

  lemma NextPair(data: seq<int>, n: nat)
    requires n < |data|
    ensures SeenPairs(data, n + 1) == SeenPairs(data, n) + multiset{PairAt(data, n)}
  {
    assert AllPairs(data)[..n + 1] == AllPairs(data)[..n] + [PairAt(data, n)];
  }

  /** The `topK` best scores of the model's output with their labels, best first. */
  method GetTopK(data: seq<int>, topK: nat) returns (result: seq<Item>)
    requires topK >= 1
    ensures IsTopK(result, data, topK)
  {
    var k := if topK > |data| then |data| else topK;
    var h := TakeFirst(data, k);
    h := MakeHeap(h);
    if k > 0 {
      h := ConsiderRest(h, data);
    }
    result := SortHeap(h);
  }
}
