/** Shared vocabulary of the model: failure-carrying results, sums over
    counters and weights, and the two Python slicing forms the environments
    use on their item windows. */
module Common {

  datatype Option<+T> = None | Some(value: T)

  datatype Result<+T, +E> = Success(value: T) | Failure(error: E)

  function Min(a: int, b: int): int
  {
    if a <= b then a else b
  }

  // ---------------------------------------------------------------------------
  // Sums (Python `sum` / `np.sum`)
  // ---------------------------------------------------------------------------

  /** Sum of integer counters, peeled from the right. */
  function CountSum(s: seq<int>): int
  {
    if s == [] then 0 else CountSum(s[..|s| - 1]) + s[|s| - 1]
  }

  /** Sum of real weights, peeled from the right. */
  function WeightSum(s: seq<real>): real
  {
    if s == [] then 0.0 else WeightSum(s[..|s| - 1]) + s[|s| - 1]
  }

  predicate NonNegative(s: seq<int>)
  {
    forall i :: 0 <= i < |s| ==> s[i] >= 0
  }

  predicate NonNegativeWeights(s: seq<real>)
  {
    forall i :: 0 <= i < |s| ==> s[i] >= 0.0
  }

  /** Bumping one counter by `delta` moves the total by exactly `delta`. */
  lemma {:induction false} CountSumBump(s: seq<int>, i: nat, delta: int)
    requires i < |s|
    ensures CountSum(s[i := s[i] + delta]) == CountSum(s) + delta
  {
    var n := |s| - 1;
    var t := s[i := s[i] + delta];
    assert t[..n] == if i == n then s[..n] else s[..n][i := s[i] + delta];
    if i < n {
      CountSumBump(s[..n], i, delta);
    }
  }

  /** Every counter of a non-negative family is bounded by the total. */
  lemma {:induction false} CountSumBound(s: seq<int>, i: nat)
    requires i < |s| && NonNegative(s)
    ensures 0 <= s[i] <= CountSum(s)
  {
    var n := |s| - 1;
    CountSumNonNegative(s[..n]);
    if i < n {
      CountSumBound(s[..n], i);
    }
  }

  lemma {:induction false} CountSumNonNegative(s: seq<int>)
    requires NonNegative(s)
    ensures CountSum(s) >= 0
  {
    if s != [] {
      CountSumNonNegative(s[..|s| - 1]);
    }
  }

  /** Every weight of a non-negative family is bounded by the total. */
  lemma {:induction false} WeightSumBound(s: seq<real>, i: nat)
    requires i < |s| && NonNegativeWeights(s)
    ensures 0.0 <= s[i] <= WeightSum(s)
  {
    var n := |s| - 1;
    WeightSumNonNegative(s[..n]);
    if i < n {
      WeightSumBound(s[..n], i);
    }
  }

  lemma {:induction false} WeightSumNonNegative(s: seq<real>)
    requires NonNegativeWeights(s)
    ensures WeightSum(s) >= 0.0
  {
    if s != [] {
      WeightSumNonNegative(s[..|s| - 1]);
    }
  }

  /** Python `max(s)`, which raises on an empty list: an element of `s`
      that bounds all the others. */
  method MaxOf(s: seq<real>) returns (m: real)
    requires s != []
    ensures m in s
    ensures forall i :: 0 <= i < |s| ==> s[i] <= m
  {
    m := s[0];
    var i := 1;
    while i < |s|
      invariant 1 <= i <= |s|
      invariant m in s[..i]
      invariant forall j :: 0 <= j < i ==> s[j] <= m
    {
      if s[i] > m {
        m := s[i];
      }
      i := i + 1;
    }
    assert s[..|s|] == s;
  }

  /** `max(s) > 0` for a non-empty `s`: some element is positive. */
  predicate AnyPositive(s: seq<real>)
  {
    exists k :: 0 <= k < |s| && s[k] > 0.0
  }

  // ---------------------------------------------------------------------------
  // Python slicing on windows
  // ---------------------------------------------------------------------------

  /** Python `s[k:]` for a non-negative `k`: empty once `k` passes the end. */
  function Drop<T>(s: seq<T>, k: nat): seq<T>
  {
    if k >= |s| then [] else s[k..]
  }

  /** Python `s[-n:]` for a non-negative `n`. Note that `s[-0:]` is `s[0:]`,
      the whole list, not the empty one. */
  function TakeLast<T>(s: seq<T>, n: nat): seq<T>
  {
    if n == 0 || n >= |s| then s else s[|s| - n..]
  }

  /** The batch window update `(items[k:] + hits)[-n:]` with `k == |hits|`
      on a full window of width `n > 0` is a slide: the result is the last
      `n` entries of `items + hits`, so the width stays `n`. */
  lemma SlidingWindow<T>(items: seq<T>, hits: seq<T>, n: nat)
    requires |items| == n > 0
    ensures TakeLast(Drop(items, |hits|) + hits, n) == (items + hits)[|hits|..]
    ensures |TakeLast(Drop(items, |hits|) + hits, n)| == n
  {
    var k := |hits|;
    if k < n {
      assert Drop(items, k) + hits == (items + hits)[k..];
    } else {
      assert Drop(items, k) + hits == hits;
      assert (items + hits)[k..] == hits[k - n..];
    }
  }

  /** The window after a batch: when some reward is positive, the hits are
      appended after dropping as many entries from the front, and only the
      last `n` entries are kept (`n == 0` keeps everything, as `s[-0:]`). */
  function BatchWindow(items: seq<int>, rewards: seq<real>, hits: seq<int>, n: nat): seq<int>
  {
    if AnyPositive(rewards) then TakeLast(Drop(items, |hits|) + hits, n) else items
  }

  /** A full window keeps its width through a batch, and a moving window
      ends with the batch's hits (the most recent last). */
  lemma BatchWindowShape(items: seq<int>, rewards: seq<real>, hits: seq<int>, n: nat)
    requires |items| == n > 0
    ensures |BatchWindow(items, rewards, hits, n)| == n
    ensures AnyPositive(rewards) ==>
      BatchWindow(items, rewards, hits, n) == (items + hits)[|hits|..]
    ensures AnyPositive(rewards) && |hits| <= n ==>
      BatchWindow(items, rewards, hits, n)[n - |hits|..] == hits
  {
    SlidingWindow(items, hits, n);
    if AnyPositive(rewards) && |hits| <= n {
      assert (items + hits)[|hits|..][n - |hits|..] == hits;
    }
  }

  /** Python's `s[i]` for `-len(s) <= i < len(s)`: a negative
      index counts from the end. */
  function PyIndex(i: int, n: nat): (k: nat)
    requires -(n as int) <= i < n
    ensures k < n
  {
    if i < 0 then n + i else i
  }
}
