/** The ranking step of the bandit policies: numpy's `argsort()` (ascending
    scores), an optional positional selection `[available_items]`, then
    `[::-1][:len_list]` (highest scores first, at most `len_list` of them). */
module Ranking {
  import opened Common

  /** Every entry of `order` is an index below `n`. */
  predicate InRange(order: seq<nat>, n: nat)
  {
    forall p :: 0 <= p < |order| ==> order[p] < n
  }

  predicate Distinct(order: seq<nat>)
  {
    forall p, q :: 0 <= p < q < |order| ==> order[p] != order[q]
  }

  predicate Ascending(scores: seq<real>, order: seq<nat>)
    requires InRange(order, |scores|)
  {
    forall p, q :: 0 <= p < q < |order| ==> scores[order[p]] <= scores[order[q]]
  }

  predicate Descending(scores: seq<real>, order: seq<nat>)
    requires InRange(order, |scores|)
  {
    forall p, q :: 0 <= p < q < |order| ==> scores[order[p]] >= scores[order[q]]
  }

  /** Places index `i` after every entry whose score is not above its own. */
  function Insert(scores: seq<real>, order: seq<nat>, i: nat): (r: seq<nat>)
    requires InRange(order, |scores|) && i < |scores|
    ensures |r| == |order| + 1 && InRange(r, |scores|)
    ensures forall x :: x in r <==> x in order || x == i
  {
    if order == [] then [i]
    else if scores[i] < scores[order[0]] then [i] + order
    else [order[0]] + Insert(scores, order[1..], i)
  }

  /** The indices `0 .. n-1` sorted by ascending score. numpy's default sort
      does not fix an order among equal scores; this one keeps them in index
      order. */
  function ArgSortPrefix(scores: seq<real>, n: nat): (r: seq<nat>)
    requires n <= |scores|
    ensures |r| == n && InRange(r, |scores|)
    ensures forall x: nat :: x in r <==> x < n
  {
    if n == 0 then [] else Insert(scores, ArgSortPrefix(scores, n - 1), n - 1)
  }

  /** `scores.argsort()`. */
  function ArgSort(scores: seq<real>): (r: seq<nat>)
    ensures |r| == |scores| && InRange(r, |scores|)
  {
    ArgSortPrefix(scores, |scores|)
  }

  /** `s[::-1]`. */
  function Reverse(s: seq<nat>): (r: seq<nat>)
    ensures |r| == |s|
  {
    seq(|s|, p requires 0 <= p < |s| => s[|s| - 1 - p])
  }

  /** `order[::-1][:k]`. */
  function Top(order: seq<nat>, k: nat): (r: seq<nat>)
    ensures |r| == Min(k, |order|)
  {
    Reverse(order)[..Min(k, |order|)]
  }

  /** `order[positions]` with numpy's positional indexing, defined when every
      position lies in `-len(order) .. len(order) - 1`. */
  function Gather(order: seq<nat>, positions: seq<int>): (r: seq<nat>)
    requires forall p :: 0 <= p < |positions| ==> -|order| <= positions[p] < |order|
    ensures |r| == |positions|
  {
    seq(|positions|, p requires 0 <= p < |positions| => order[PyIndex(positions[p], |order|)])
  }

  predicate PositionsInRange(positions: seq<int>, n: nat)
  {
    forall p :: 0 <= p < |positions| ==> -(n as int) <= positions[p] < n
  }

  /** `argsort()`, then `[available]` when `available` is non-empty, then
      `[::-1][:k]`. `None` stands for numpy's IndexError on a position out
      of range. */
  function Select(scores: seq<real>, available: seq<int>, k: nat): Option<seq<nat>>
  {
    if available == [] then Some(Top(ArgSort(scores), k))
    else if PositionsInRange(available, |scores|) then Some(Top(Gather(ArgSort(scores), available), k))
    else None
  }

  // ---------------------------------------------------------------------------
  // Properties
  // ---------------------------------------------------------------------------

  lemma {:induction false} InsertAscending(scores: seq<real>, order: seq<nat>, i: nat)
    requires InRange(order, |scores|) && i < |scores| && Ascending(scores, order)
    ensures Ascending(scores, Insert(scores, order, i))
    decreases |order|
  {
    if order != [] && scores[i] >= scores[order[0]] {
      var rest := Insert(scores, order[1..], i);
      InsertAscending(scores, order[1..], i);
      forall q | 0 <= q < |rest|
        ensures scores[order[0]] <= scores[rest[q]]
      {
        assert rest[q] in rest;
        if rest[q] != i {
          assert rest[q] in order[1..];
          var k :| 0 <= k < |order[1..]| && order[1..][k] == rest[q];
          assert order[k + 1] == rest[q];
        }
      }
    }
  }

  lemma {:induction false} InsertDistinct(scores: seq<real>, order: seq<nat>, i: nat)
    requires InRange(order, |scores|) && i < |scores| && Distinct(order) && i !in order
    ensures Distinct(Insert(scores, order, i))
    decreases |order|
  {
    if order != [] && scores[i] >= scores[order[0]] {
      InsertDistinct(scores, order[1..], i);
      assert order[0] !in order[1..];
    }
  }

  /** `argsort` lists every index exactly once, by ascending score. */
  lemma {:induction false} ArgSortPrefixSorted(scores: seq<real>, n: nat)
    requires n <= |scores|
    ensures Ascending(scores, ArgSortPrefix(scores, n))
    ensures Distinct(ArgSortPrefix(scores, n))
  {
    if n > 0 {
      ArgSortPrefixSorted(scores, n - 1);
      InsertAscending(scores, ArgSortPrefix(scores, n - 1), n - 1);
      InsertDistinct(scores, ArgSortPrefix(scores, n - 1), n - 1);
    }
  }

  /** `argsort` is a permutation of the indices that sorts the scores. */
  lemma ArgSortSpec(scores: seq<real>)
    ensures Ascending(scores, ArgSort(scores)) && Distinct(ArgSort(scores))
    ensures forall x: nat :: x in ArgSort(scores) <==> x < |scores|
  {
    ArgSortPrefixSorted(scores, |scores|);
  }

  /** Reversing an ascending, duplicate-free order gives a descending,
      duplicate-free one. */
  lemma ReverseOfAscending(scores: seq<real>, order: seq<nat>)
    requires InRange(order, |scores|) && Ascending(scores, order) && Distinct(order)
    ensures InRange(Reverse(order), |scores|)
    ensures Distinct(Reverse(order)) && Descending(scores, Reverse(order))
  {
    var r := Reverse(order);
    var n := |order|;
    forall p, q | 0 <= p < q < n
      ensures r[p] != r[q] && scores[r[p]] >= scores[r[q]]
    {
      assert r[p] == order[n - 1 - p] && r[q] == order[n - 1 - q];
    }
  }

  /** The top `k` of an ascending, duplicate-free order: in descending score
      order, with no duplicate. */
  lemma TopOfAscending(scores: seq<real>, order: seq<nat>, k: nat)
    requires InRange(order, |scores|) && Ascending(scores, order) && Distinct(order)
    ensures InRange(Top(order, k), |scores|)
    ensures Distinct(Top(order, k))
    ensures Descending(scores, Top(order, k))
  {
    ReverseOfAscending(scores, order);
  }

  /** No index left out of the top `k` of an ascending order scores above
      one that was kept. */
  lemma TopDominates(scores: seq<real>, order: seq<nat>, k: nat, x: nat, p: nat)
    requires InRange(order, |scores|) && Ascending(scores, order)
    requires x in order && x !in Top(order, k) && p < |Top(order, k)|
    ensures scores[x] <= scores[Top(order, k)[p]]
  {
    var r := Top(order, k);
    var n := |order|;
    var i :| 0 <= i < n && order[i] == x;
    assert r[p] == order[n - 1 - p];
    TopMember(order, k, i);
  }

  /** Position `i` of `order` lands at position `len(order) - 1 - i` of the
      reversed order, so it is kept when that position is below `k`. */
  lemma TopMember(order: seq<nat>, k: nat, i: nat)
    requires i < |order|
    ensures |order| - 1 - i < |Top(order, k)| ==> order[i] in Top(order, k)
  {
    var n := |order|;
    if n - 1 - i < |Top(order, k)| {
      assert Top(order, k)[n - 1 - i] == order[i];
    }
  }

  /** The ranking without a selection of positions: `min(k, n)` distinct
      actions, highest scores first, none of the others scoring higher than
      any of them. */
  lemma RankedTop(scores: seq<real>, k: nat)
    ensures Select(scores, [], k).Some?
    ensures var r := Select(scores, [], k).value;
            && |r| == Min(k, |scores|)
            && InRange(r, |scores|)
            && Distinct(r)
            && Descending(scores, r)
            && (forall x, p :: 0 <= x < |scores| && x !in r && 0 <= p < |r| ==> scores[x] <= scores[r[p]])
  {
    var order := ArgSort(scores);
    var r := Top(order, k);
    ArgSortSpec(scores);
    TopOfAscending(scores, order, k);
    forall x, p | 0 <= x < |scores| && x !in r && 0 <= p < |r|
      ensures scores[x] <= scores[r[p]]
    {
      TopDominates(scores, order, k, x, p);
    }
  }

  /** With a selection of positions, the result is defined exactly when every
      position is in range, and then holds `min(k, len(available))` action
      indices. */
  lemma SelectedShape(scores: seq<real>, available: seq<int>, k: nat)
    requires available != []
    ensures Select(scores, available, k).Some? <==> PositionsInRange(available, |scores|)
    ensures Select(scores, available, k).Some? ==>
              |Select(scores, available, k).value| == Min(k, |available|)
              && InRange(Select(scores, available, k).value, |scores|)
  {
  }
}
