// scenario.resolveOrder: the order in which RunPushN delivers its webhooks.
module DeliveryOrder {

  function Counting(n: nat): (r: seq<int>)
    ensures |r| == n && forall i :: 0 <= i < n ==> r[i] == i
  {
    seq(n, i => i)
  }

  function Reversed(s: seq<int>): (r: seq<int>)
    ensures |r| == |s| && forall i :: 0 <= i < |s| ==> r[i] == s[|s| - 1 - i]
  {
    seq(|s|, i requires 0 <= i < |s| => s[|s| - 1 - i])
  }

  /** rand.Shuffle calls back with index pairs of its choosing. */
  predicate Within(swaps: seq<(nat, nat)>, n: nat) {
    forall k :: 0 <= k < |swaps| ==> swaps[k].0 < n && swaps[k].1 < n
  }

  function Swapped(s: seq<int>, swaps: seq<(nat, nat)>): (r: seq<int>)
    requires Within(swaps, |s|)
    ensures |r| == |s|
  {
    if swaps == [] then s
    else
      var k := |swaps| - 1;
      var t := Swapped(s, swaps[..k]);
      t[swaps[k].0 := t[swaps[k].1]][swaps[k].1 := t[swaps[k].0]]
  }

  /** Swaps happen one after the other, each exchanging two entries and leaving the others. */
  lemma SwappedLast(s: seq<int>, swaps: seq<(nat, nat)>, i: nat, j: nat)
    requires Within(swaps, |s|) && i < |s| && j < |s|
    ensures Within(swaps + [(i, j)], |s|) && Swapped(s, []) == s
    ensures var before, r := Swapped(s, swaps), Swapped(s, swaps + [(i, j)]);
            r[i] == before[j] && r[j] == before[i] && forall k :: 0 <= k < |s| && k != i && k != j ==> r[k] == before[k]
  {
    assert (swaps + [(i, j)])[..|swaps|] == swaps;
  }

  /** The order by name: any name but these three, and a custom list of another length, means ascending. */
  function OrderFor(n: nat, order: string, custom: seq<int>, swaps: seq<(nat, nat)>): (r: seq<int>)
    requires Within(swaps, n)
    ensures |r| == n
  {
    if order == "desc" then Reversed(Counting(n))
    else if order == "shuffle" then Swapped(Counting(n), swaps)
    else if order == "custom" && |custom| == n then custom
    else Counting(n)
  }

  method ResolveOrder(n: nat, order: string, custom: seq<int>, swaps: seq<(nat, nat)>) returns (indices: array<int>)
    requires Within(swaps, n)
    ensures fresh(indices) && indices[..] == OrderFor(n, order, custom, swaps) && indices.Length == n
    ensures order == "desc" ==> forall i :: 0 <= i < n ==> indices[i] == n - 1 - i
    ensures order == "shuffle" ==> indices[..] == Swapped(seq(n, i => i), swaps)
    ensures order == "custom" && |custom| == n ==> indices[..] == custom
    ensures order !in {"desc", "shuffle"} && !(order == "custom" && |custom| == n) ==>
              forall i :: 0 <= i < n ==> indices[i] == i
  {
    indices := new int[n](i => i);
    assert indices[..] == Counting(n);
    if order == "desc" {
      ReverseInPlace(indices);
    } else if order == "shuffle" {
      ShuffleInPlace(indices, swaps);
    } else if order == "custom" && |custom| == n {
      var cp := new int[n](i requires 0 <= i < n => custom[i]);
      assert cp[..] == custom;
      return cp;
    }
  }

  method ReverseInPlace(a: array<int>)
    modifies a
    ensures a[..] == Reversed(old(a[..]))
  {
    var i, j := 0, a.Length - 1;
    while i < j
      invariant 0 <= i <= a.Length && j == a.Length - 1 - i && i <= j + 2
      invariant forall k :: 0 <= k < i || j < k < a.Length ==> a[k] == old(a[a.Length - 1 - k])
      invariant forall k :: i <= k <= j ==> a[k] == old(a[k])
    {
      a[i], a[j] := a[j], a[i];
      i, j := i + 1, j - 1;
    }
    assert forall k :: 0 <= k < a.Length ==> a[..][k] == Reversed(old(a[..]))[k];
  }

  method ShuffleInPlace(a: array<int>, swaps: seq<(nat, nat)>)
    requires Within(swaps, a.Length)
    modifies a
    ensures a[..] == Swapped(old(a[..]), swaps)
  {
    for k := 0 to |swaps|
      invariant a[..] == Swapped(old(a[..]), swaps[..k])
    {
      assert swaps[..k + 1][..k] == swaps[..k];
      var (i, j) := swaps[k];
      a[i], a[j] := a[j], a[i];
    }
    assert swaps[..|swaps|] == swaps;
  }

  // ----- who is delivered how often -----

  ghost predicate EachOnce(s: seq<int>, n: nat) {
    forall x :: 0 <= x < n ==> multiset(s)[x] == 1
  }

  /** Every entry names a commit and no two name the same one. */
  predicate Fair(s: seq<int>, n: nat) {
    (forall k :: 0 <= k < |s| ==> 0 <= s[k] < n) && (forall j, k :: 0 <= j < k < |s| ==> s[j] != s[k])
  }

  /** Exactly when the list is custom, of the right length and not a permutation is some commit missed or repeated. */
  lemma EachOnceIff(n: nat, order: string, custom: seq<int>, swaps: seq<(nat, nat)>)
    requires Within(swaps, n)
    ensures EachOnce(OrderFor(n, order, custom, swaps), n)
       <==> (order == "custom" && |custom| == n ==> Fair(custom, n))
  {
    var r := OrderFor(n, order, custom, swaps);
    if order == "shuffle" { SwappedIsFair(Counting(n), swaps, n); }
    FairIffEachOnce(r, n);
  }

  lemma {:induction false} SwappedIsFair(s: seq<int>, swaps: seq<(nat, nat)>, n: nat)
    requires Within(swaps, |s|) && Fair(s, n)
    ensures Fair(Swapped(s, swaps), n)
  {
    if swaps != [] { SwappedIsFair(s, swaps[..|swaps| - 1], n); }
  }

  /** A list of `n` entries covers 0..n-1 exactly when it stays in range and repeats nothing. */
  lemma FairIffEachOnce(s: seq<int>, n: nat)
    requires |s| == n
    ensures Fair(s, n) <==> EachOnce(s, n)
  {
    var m, all := multiset(s), multiset(Counting(n));
    CountsOnce(n);
    if EachOnce(s, n) {
      assert all <= m;
      SameSize(all, m);
      forall k | 0 <= k < |s|
        ensures 0 <= s[k] < n
      {
        assert s[k] in m;
      }
      if j, k :| 0 <= j < k < |s| && s[j] == s[k] { CountedTwice(s, j, k); }
    }
    if Fair(s, n) {
      forall x
        ensures m[x] <= all[x]
      {
        if m[x] > 1 { TwoPlaces(s, x); }
        if m[x] > 0 { assert x in s; }
      }
      SameSize(m, all);
    }
  }

  lemma CountsOnce(n: nat)
    ensures forall x :: multiset(Counting(n))[x] == if 0 <= x < n then 1 else 0
  {
    if n > 0 {
      CountsOnce(n - 1);
      assert Counting(n) == Counting(n - 1) + [n - 1];
    }
  }

  lemma SameSize(a: multiset<int>, b: multiset<int>)
    requires a <= b && |a| == |b|
    ensures a == b
  {
    assert b == a + (b - a);
    assert |b - a| == 0;
  }

  lemma CountedTwice(s: seq<int>, j: nat, k: nat)
    requires j < k < |s| && s[j] == s[k]
    ensures multiset(s)[s[j]] >= 2
  {
    assert s == s[..j] + [s[j]] + s[j + 1..k] + [s[k]] + s[k + 1..];
  }

  lemma {:induction false} TwoPlaces(s: seq<int>, x: int)
    requires multiset(s)[x] > 1
    ensures exists j, k :: 0 <= j < k < |s| && s[j] == x && s[k] == x
  {
    var n := |s| - 1;
    assert s == s[..n] + [s[n]];
    if s[n] == x {
      assert x in multiset(s[..n]);
      var j :| 0 <= j < n && s[..n][j] == x;
      assert s[j] == x && s[n] == x;
    } else {
      TwoPlaces(s[..n], x);
      var j, k :| 0 <= j < k < n && s[..n][j] == x && s[..n][k] == x;
      assert s[j] == x && s[k] == x;
    }
  }
}
