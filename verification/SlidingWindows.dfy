/** Sliding windows of a sample stream: what the streaming iterator is for, stated without its machinery. */
module SlidingWindows {

  newtype int16 = x: int | -0x8000 <= x < 0x8000

  /** `out` is every full window of `stream`, in order, none lost, repeated or altered. */
  ghost predicate IsSlidingWindows(out: seq<seq<int16>>, stream: seq<int16>, step: nat, window: nat) {
    && (forall k :: 0 <= k < |out| ==> k * step + window <= |stream| && out[k] == stream[k * step..k * step + window])
    && |stream| < |out| * step + window
  }

  lemma ProductMonotone(a: int, b: int, step: nat)
    requires a <= b
    ensures a * step <= b * step
  {
  }

  lemma NoLonger(a: seq<seq<int16>>, b: seq<seq<int16>>, stream: seq<int16>, step: nat, window: nat)
    requires IsSlidingWindows(a, stream, step, window) && IsSlidingWindows(b, stream, step, window)
    ensures |a| <= |b|
  {
    if |a| > 0 {
      var _ := a[|a| - 1];
      if |b| < |a| {
        ProductMonotone(|b|, |a| - 1, step);
      }
    }
  }

  /** A stream has only one list of windows. */
  lemma SlidingWindowsUnique(a: seq<seq<int16>>, b: seq<seq<int16>>, stream: seq<int16>, step: nat, window: nat)
    requires IsSlidingWindows(a, stream, step, window) && IsSlidingWindows(b, stream, step, window)
    ensures a == b
  {
    NoLonger(a, b, stream, step, window);
    NoLonger(b, a, stream, step, window);
  }

  /** `a` is a whole number of steps. */
  ghost predicate WholeSteps(a: nat, step: nat) {
    a == 0 || (0 < step <= a && WholeSteps(a - step, step))
  }

  /** The last whole number of steps not above `x`. */
  ghost function LastStep(x: nat, step: nat): (r: nat)
    requires step > 0
    ensures r <= x < r + step
    ensures WholeSteps(r, step)
  {
    if x < step then 0 else step + LastStep(x - step, step)
  }

  lemma {:induction false} LastStepMonotone(x: nat, y: nat, step: nat)
    requires step > 0 && x <= y
    ensures LastStep(x, step) <= LastStep(y, step)
  {
    if x >= step {
      LastStepMonotone(x - step, y - step, step);
    }
  }

  /** Division finds the last step. */
  lemma {:induction false} LastStepByDivision(x: nat, step: nat)
    requires step > 0
    ensures x / step * step == LastStep(x, step)
  {
    var q, r := x / step, x % step;
    assert x == q * step + r;
    LastStepOfProduct(q, r, step);
  }

  lemma {:induction false} LastStepOfProduct(q: nat, r: nat, step: nat)
    requires r < step
    ensures 0 <= q * step && LastStep(q * step + r, step) == q * step
  {
    if q > 0 {
      assert q * step == (q - 1) * step + step;
      LastStepOfProduct(q - 1, r, step);
    }
  }

  lemma SliceOfSlice(a: seq<int16>, lo: nat, hi: nat, n: nat)
    requires lo <= hi <= |a| && n <= hi - lo
    ensures a[lo..hi][..n] == a[lo..lo + n]
  {
  }
}
