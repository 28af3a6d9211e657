// sort.Slice and sort.SliceStable: a sequence rearranged by a strict weak order.
module Sorting {

  ghost predicate StrictWeak<T(!new)>(less: (T, T) -> bool) {
    && (forall a, b :: less(a, b) ==> !less(b, a))
    && (forall a, b, c :: !less(b, a) && !less(c, b) ==> !less(c, a))
  }

  /** `perm` lists every index below `n` exactly once. */
  ghost predicate IsPermutation(perm: seq<nat>, n: nat) {
    && |perm| == n
    && (forall i :: 0 <= i < n ==> perm[i] < n)
    && (forall i, j :: 0 <= i < j < n ==> perm[i] != perm[j])
    && (forall x :: 0 <= x < n ==> x in perm)
  }

  /** `perm` lists a prefix of `s` in ascending order, equal elements keeping their order. */
  ghost predicate SortsPrefix<T(!new)>(s: seq<T>, perm: seq<nat>, less: (T, T) -> bool) {
    && |perm| <= |s| && IsPermutation(perm, |perm|)
    && forall i, j :: 0 <= i < j < |perm| ==> Precedes(s, perm[i], perm[j], less)
  }

  /** Smaller elements come first, and of two equal ones the earlier. */
  predicate Precedes<T>(s: seq<T>, a: nat, b: nat, less: (T, T) -> bool)
    requires a < |s| && b < |s|
  {
    less(s[a], s[b]) || (!less(s[b], s[a]) && a < b)
  }

  /** `perm` rearranges all of `s`. */
  ghost predicate StablySorts<T(!new)>(s: seq<T>, perm: seq<nat>, less: (T, T) -> bool) {
    SortsPrefix(s, perm, less) && |perm| == |s|
  }

  /** `perm` rearranges all of `s` with nothing out of order; equal elements may come in any order. */
  ghost predicate Sorts<T(!new)>(s: seq<T>, perm: seq<nat>, less: (T, T) -> bool) {
    IsPermutation(perm, |s|) && forall i, j :: 0 <= i < j < |s| ==> !less(s[perm[j]], s[perm[i]])
  }

  /** A stable sort has exactly one possible outcome. */
  lemma {:induction false} StableOrderUnique<T(!new)>(s: seq<T>, p: seq<nat>, q: seq<nat>, less: (T, T) -> bool)
    requires StrictWeak(less)
    requires StablySorts(s, p, less) && StablySorts(s, q, less)
    ensures p == q
  {
    FirstDifference(s, p, q, less, |s|);
  }

  lemma {:induction false} FirstDifference<T(!new)>(s: seq<T>, p: seq<nat>, q: seq<nat>, less: (T, T) -> bool, k: nat)
    requires StrictWeak(less)
    requires StablySorts(s, p, less) && StablySorts(s, q, less) && k <= |s|
    ensures p[..k] == q[..k]
  {
    if k > 0 {
      FirstDifference(s, p, q, less, k - 1);
      var i := k - 1;
      assert forall a :: 0 <= a < i ==> p[..i][a] == q[..i][a];
      assert p[i] in q && q[i] in p;
      var j :| 0 <= j < |s| && q[j] == p[i];
      var l :| 0 <= l < |s| && p[l] == q[i];
      assert j >= i && l >= i;
      assert p[..k] == p[..i] + [p[i]] && q[..k] == q[..i] + [q[i]];
    }
  }

  lemma InsertKeepsPermutation(perm: seq<nat>, p: nat)
    requires IsPermutation(perm, |perm|) && p <= |perm|
    ensures IsPermutation(perm[..p] + [|perm|] + perm[p..], |perm| + 1)
  {
    var m := |perm|;
    var q := perm[..p] + [m] + perm[p..];
    forall x | 0 <= x < m + 1
      ensures x in q
    {
      if x == m {
        assert q[p] == m;
      } else {
        assert x in perm;
        var i :| 0 <= i < m && perm[i] == x;
        assert q[if i < p then i else i + 1] == x;
      }
    }
  }

  lemma InsertKeepsOrder<T(!new)>(s: seq<T>, perm: seq<nat>, less: (T, T) -> bool, p: nat)
    requires StrictWeak(less)
    requires SortsPrefix(s, perm, less) && |perm| < |s| && p <= |perm|
    requires forall i :: 0 <= i < p ==> !less(s[|perm|], s[perm[i]])
    requires forall i :: p <= i < |perm| ==> less(s[|perm|], s[perm[i]])
    ensures SortsPrefix(s, perm[..p] + [|perm|] + perm[p..], less)
  {
    var m := |perm|;
    var q := perm[..p] + [m] + perm[p..];
    InsertKeepsPermutation(perm, p);
    forall i, j | 0 <= i < j < |q|
      ensures Precedes(s, q[i], q[j], less)
    {
      assert q[i] == if i < p then perm[i] else if i == p then m else perm[i - 1];
      assert q[j] == if j < p then perm[j] else if j == p then m else perm[j - 1];
    }
  }

  /** Go's sort.SliceStable. */
  method StableSort<T(!new)>(s: seq<T>, less: (T, T) -> bool) returns (r: seq<T>, ghost perm: seq<nat>)
    requires StrictWeak(less)
    ensures |r| == |s| && StablySorts(s, perm, less)
    ensures forall i :: 0 <= i < |r| ==> r[i] == s[perm[i]]
  {
    r, perm := [], [];
    for m := 0 to |s|
      invariant |r| == |perm| == m && SortsPrefix(s, perm, less)
      invariant forall i :: 0 <= i < m ==> r[i] == s[perm[i]]
    {
      var p := m;
      while p > 0 && less(s[m], r[p - 1])
        invariant 0 <= p <= m
        invariant forall i :: p <= i < m ==> less(s[m], s[perm[i]])
      {
        p := p - 1;
      }
      InsertKeepsOrder(s, perm, less, p);
      r := r[..p] + [s[m]] + r[p..];
      perm := perm[..p] + [m] + perm[p..];
    }
  }

  /** Go's sort.Slice: some order that sorts, and callers learn no more than that. */
  method Sort<T(!new)>(s: seq<T>, less: (T, T) -> bool) returns (r: seq<T>, ghost perm: seq<nat>)
    requires StrictWeak(less)
    ensures |r| == |s| && Sorts(s, perm, less)
    ensures forall i :: 0 <= i < |r| ==> r[i] == s[perm[i]]
  {
    r, perm := StableSort(s, less);
  }
}
