/** Boolean masks over sequences, as pandas uses them to keep rows or columns:
    the positions a mask keeps, and the elements at a list of positions. */
module Seqs {

  /** The positions at which `mask` holds, in increasing order. */
  function IndicesWhere(mask: seq<bool>): (r: seq<nat>)
    ensures forall k :: 0 <= k < |r| ==> r[k] < |mask| && mask[r[k]]
    ensures forall k, l :: 0 <= k < l < |r| ==> r[k] < r[l]
    ensures forall i :: 0 <= i < |mask| && mask[i] ==> i in r
  {
    if |mask| == 0 then []
    else IndicesWhere(mask[..|mask| - 1]) + (if mask[|mask| - 1] then [|mask| - 1] else [])
  }

  /** How many positions `mask` rejects. */
  function CountFalse(mask: seq<bool>): nat
  {
    if |mask| == 0 then 0
    else CountFalse(mask[..|mask| - 1]) + (if mask[|mask| - 1] then 0 else 1)
  }

  /** Every position is either kept or rejected. */
  lemma {:induction false} KeptPlusRejected(mask: seq<bool>)
    ensures |IndicesWhere(mask)| + CountFalse(mask) == |mask|
  {
    if |mask| > 0 {
      KeptPlusRejected(mask[..|mask| - 1]);
    }
  }

  /** The elements of `xs` at the positions `idx`, in that order. */
  function Select<T>(xs: seq<T>, idx: seq<nat>): (r: seq<T>)
    requires forall k :: 0 <= k < |idx| ==> idx[k] < |xs|
    ensures |r| == |idx|
    ensures forall k :: 0 <= k < |idx| ==> r[k] == xs[idx[k]]
  {
    seq(|idx|, k requires 0 <= k < |idx| => xs[idx[k]])
  }

  /** The elements of `xs` where `mask` holds, in their original order. */
  function Filter<T>(xs: seq<T>, mask: seq<bool>): (r: seq<T>)
    requires |mask| == |xs|
    ensures |r| == |IndicesWhere(mask)|
    ensures forall k :: 0 <= k < |r| ==> r[k] == xs[IndicesWhere(mask)[k]]
  {
    Select(xs, IndicesWhere(mask))
  }

  /** A filter keeps nothing exactly when the mask holds nowhere. */
  lemma FilterEmpty<T>(xs: seq<T>, mask: seq<bool>)
    requires |mask| == |xs|
    ensures Filter(xs, mask) == [] <==> forall i :: 0 <= i < |mask| ==> !mask[i]
  {
    if exists i :: 0 <= i < |mask| && mask[i] {
      var i :| 0 <= i < |mask| && mask[i];
      assert i in IndicesWhere(mask);
    } else {
      NoneKept(mask);
    }
  }

  /** A mask that holds nowhere keeps no position. */
  lemma {:induction false} NoneKept(mask: seq<bool>)
    requires forall i :: 0 <= i < |mask| ==> !mask[i]
    ensures IndicesWhere(mask) == []
  {
    if |mask| > 0 {
      NoneKept(mask[..|mask| - 1]);
    }
  }

  /** A mask that holds everywhere keeps every position, so filtering by it
      changes nothing. */
  lemma {:induction false} FilterAll<T>(xs: seq<T>, mask: seq<bool>)
    requires |mask| == |xs| && forall i :: 0 <= i < |mask| ==> mask[i]
    ensures Filter(xs, mask) == xs
  {
    KeptPlusRejected(mask);
    NoneRejected(mask);
    var idx := IndicesWhere(mask);
    assert |idx| == |xs|;
    forall k | 0 <= k < |idx|
      ensures idx[k] == k
    {
      IndexBounds(idx, k);
    }
  }

  /** Increasing positions below `|idx|` are `0, 1, 2, ...`. */
  lemma IndexBounds(idx: seq<nat>, k: nat)
    requires forall k, l :: 0 <= k < l < |idx| ==> idx[k] < idx[l]
    requires forall k :: 0 <= k < |idx| ==> idx[k] < |idx|
    requires k < |idx|
    ensures idx[k] == k
  {
    AtLeastPosition(idx, k);
    AtMostPosition(idx, k);
  }

  lemma {:induction false} AtLeastPosition(idx: seq<nat>, k: nat)
    requires forall k, l :: 0 <= k < l < |idx| ==> idx[k] < idx[l]
    requires k < |idx|
    ensures idx[k] >= k
  {
    if k > 0 {
      AtLeastPosition(idx, k - 1);
    }
  }

  lemma {:induction false} AtMostPosition(idx: seq<nat>, k: nat)
    requires forall k, l :: 0 <= k < l < |idx| ==> idx[k] < idx[l]
    requires forall k :: 0 <= k < |idx| ==> idx[k] < |idx|
    requires k < |idx|
    ensures idx[k] <= k
    decreases |idx| - k
  {
    if k < |idx| - 1 {
      AtMostPosition(idx, k + 1);
    }
  }

  /** A mask that holds everywhere keeps every position, in order. */
  lemma {:induction false} AllIndices(mask: seq<bool>)
    requires forall i :: 0 <= i < |mask| ==> mask[i]
    ensures IndicesWhere(mask) == seq(|mask|, k requires 0 <= k < |mask| => k)
  {
    if |mask| > 0 {
      AllIndices(mask[..|mask| - 1]);
    }
  }

  /** A mask that fails at position `p` only keeps every position but `p`,
      in order. */
  lemma {:induction false} AllButOneIndices(mask: seq<bool>, p: nat)
    requires p < |mask|
    requires forall i :: 0 <= i < |mask| ==> (mask[i] <==> i != p)
    ensures IndicesWhere(mask) == seq(|mask| - 1, k requires 0 <= k < |mask| - 1 => if k < p then k else k + 1)
  {
    var n := |mask|;
    if p == n - 1 {
      AllIndices(mask[..n - 1]);
    } else {
      AllButOneIndices(mask[..n - 1], p);
    }
  }

  /** A mask that holds everywhere rejects nothing. */
  lemma {:induction false} NoneRejected(mask: seq<bool>)
    requires forall i :: 0 <= i < |mask| ==> mask[i]
    ensures CountFalse(mask) == 0
  {
    if |mask| > 0 {
      NoneRejected(mask[..|mask| - 1]);
    }
  }
}
