/** `Vec::swap_remove` and removing a batch of positions with it, as the mixer and
    the GL context do. */
module Vecs {

  /** `v.swap_remove(i)`: the last element takes the place of element `i`. */
  function SwapRemove<T>(s: seq<T>, i: nat): (r: seq<T>)
    requires i < |s|
    ensures |r| == |s| - 1
    ensures r[..i] == s[..i]
    ensures i < |r| ==> r[i] == s[|s| - 1] && r[i + 1..] == s[i + 1..|s| - 1]
    ensures multiset(r) + multiset{s[i]} == multiset(s)
  {
    var last := |s| - 1;
    if i == last then
      assert s == s[..i] + [s[i]];
      s[..i]
    else
      assert s == s[..i] + [s[i]] + s[i + 1..last] + [s[last]];
      s[..i] + [s[last]] + s[i + 1..last]
  }

  /** Strictly increasing positions, each below `n`. */
  predicate Ascending(idx: seq<nat>, n: nat) {
    && (forall k :: 0 <= k < |idx| ==> idx[k] < n)
    && (forall j, k :: 0 <= j < k < |idx| ==> idx[j] < idx[k])
  }

  /** The elements of `s` at the positions `idx`, in that order. */
  function At<T>(s: seq<T>, idx: seq<nat>): (r: seq<T>)
    requires forall k :: 0 <= k < |idx| ==> idx[k] < |s|
    ensures |r| == |idx|
  {
    seq(|idx|, k requires 0 <= k < |idx| => s[idx[k]])
  }

  /** `for i in idx.into_iter().rev() { s.swap_remove(i); }` */
  function SwapRemoveAll<T>(s: seq<T>, idx: seq<nat>): (r: seq<T>)
    requires Ascending(idx, |s|)
    ensures |r| == |s| - |idx|
    decreases |idx|
  {
    if idx == [] then s
    else
      var m := idx[|idx| - 1];
      assert forall k :: 0 <= k < |idx| - 1 ==> idx[k] < m;
      SwapRemoveAll(SwapRemove(s, m), idx[..|idx| - 1])
  }

  /** Removing ascending positions from the highest down removes exactly the
      elements found at those positions: since every later (lower) position lies
      below the one just removed, a `swap_remove` never moves an element that is
      still to be removed. */
  lemma {:induction false} SwapRemoveAllRemovesPicked<T>(s: seq<T>, idx: seq<nat>)
    requires Ascending(idx, |s|)
    ensures multiset(SwapRemoveAll(s, idx)) + multiset(At(s, idx)) == multiset(s)
    decreases |idx|
  {
    if idx == [] {
      assert At(s, idx) == [];
    } else {
      var m := idx[|idx| - 1];
      var rest := idx[..|idx| - 1];
      var s' := SwapRemove(s, m);
      AscendingBelowLast(idx);
      SwapRemoveAllRemovesPicked(s', rest);
      PickBelow(s, s', rest, m);
      assert At(s, idx) == At(s, rest) + [s[m]];
      assert SwapRemoveAll(s, idx) == SwapRemoveAll(s', rest);
    }
  }

  lemma AscendingBelowLast(idx: seq<nat>)
    requires idx != [] && Ascending(idx, idx[|idx| - 1] + 1)
    ensures Ascending(idx[..|idx| - 1], idx[|idx| - 1])
  {
  }

  /** A multiset added to both sides can be taken away again. */
  lemma MultisetCancel<T>(a: multiset<T>, b: multiset<T>, c: multiset<T>)
    requires a + c == b + c
    ensures a == b
  {
    assert forall x :: a[x] == (a + c)[x] - c[x];
  }

  /** Dropping the highest position leaves positions below it. */
  lemma AscendingDropLast(idx: seq<nat>, n: nat)
    requires idx != [] && Ascending(idx, n)
    ensures idx[|idx| - 1] < n
    ensures Ascending(idx[..|idx| - 1], idx[|idx| - 1])
  {
  }

  lemma PickBelow<T>(s: seq<T>, s': seq<T>, idx: seq<nat>, m: nat)
    requires m <= |s| && m <= |s'| && s'[..m] == s[..m]
    requires Ascending(idx, m)
    ensures At(s', idx) == At(s, idx)
  {
    forall k | 0 <= k < |idx| ensures s'[idx[k]] == s[idx[k]] {
      assert s'[..m][idx[k]] == s[..m][idx[k]];
    }
  }
}
