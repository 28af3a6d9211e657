// The visible history of a branch as a pure function of its commits and the time.
module Timeline {
  import opened Objects
  import opened TreeBuilder
  import opened RepoSpec

  /** Where a branch starts. */
  datatype Origin = Origin(hash: Object -> Sha, branch: string, root: Sha)

  /** A commit request that went through, with the three clock readings it took. */
  datatype Added = Added(delay: int, files: Files, t0: Time, t1: Time, t2: Time)

  /** Whether commit `a`, if nothing replaced it, is visible at time `t`. */
  predicate Due(a: Added, t: Time) {
    a.delay == 0 || t >= a.t2 + a.delay
  }

  /** The later of a reading and the ones before it, if there are any. */
  function Latest(top: Option<Time>, t: Time): Time {
    if top.Some? && top.value > t then top.value else t
  }

  function Front(adds: seq<Added>): seq<Added>
    requires adds != []
  {
    adds[..|adds| - 1]
  }

  function Last<T>(s: seq<T>): T
    requires s != []
  {
    s[|s| - 1]
  }

  /**
   * The eager reading of the branch: all commits visible up to time `t`, oldest first.
   * A commit joins when it is due before the next one is added, and otherwise never.
   */
  ghost function Chain(o: Origin, adds: seq<Added>, t: Time): (c: seq<Sha>)
    ensures c != [] && c[0] == o.root
    decreases |adds|, 2
  {
    if adds == [] then [o.root]
    else
      var base := Chain(o, Front(adds), Last(adds).t0);
      if Due(Last(adds), t) then base + [ShaOf(o, adds)] else base
  }

  /** The commit the last request of `adds` produced; its parent is what was visible then. */
  ghost function CommitFor(o: Origin, adds: seq<Added>): Object
    requires adds != []
    decreases |adds|, 0
  {
    var a := Last(adds);
    CommitOf(o.hash, Some(Last(Chain(o, Front(adds), a.t0))), a.files, CommitMessage(|adds|, o.branch), a.t1)
  }

  ghost function ShaOf(o: Origin, adds: seq<Added>): Sha
    requires adds != []
    decreases |adds|, 1
  {
    o.hash(CommitFor(o, adds))
  }

  ghost function VisibleAt(o: Origin, adds: seq<Added>, t: Time): Sha {
    Last(Chain(o, adds, t))
  }

  // ----- fast-forward only -----

  /**
   * Whatever was visible stays on the history, as long as a newest commit that was due is not found pending when
   * its fate is decided: at the next request, or at the later time itself if there is none.
   */
  lemma {:induction false} ChainOnlyGrows(o: Origin, adds: seq<Added>, more: seq<Added>, t: Time, t': Time)
    requires adds != [] && Due(Last(adds), t) ==> Due(Last(adds), if more == [] then t' else more[0].t0)
    ensures Chain(o, adds, t) <= Chain(o, adds + more, t')
    decreases |more|
  {
    if more == [] {
      assert adds + more == adds;
    } else {
      var all := adds + more;
      assert Front(all) == adds + Front(more) && Last(all) == Last(more);
      ChainOnlyGrows(o, adds, Front(more), t, Last(all).t0);
    }
  }

  /** Otherwise it does not: the condition is exact. */
  lemma {:induction false} GrowsIff(o: Origin, files: Files, rt: Time, adds: seq<Added>, more: seq<Added>,
                                    t: Time, t': Time)
    requires CollisionFree(o.hash) && RootedAt(o, files, rt)
    ensures Chain(o, adds, t) <= Chain(o, adds + more, t')
       <==> (adds != [] && Due(Last(adds), t) ==> Due(Last(adds), if more == [] then t' else more[0].t0))
  {
    if adds != [] && Due(Last(adds), t) {
      SurfacesIff(o, files, rt, adds + more, |adds|, t');
      assert (adds + more)[..|adds|] == adds;
      assert Last(Chain(o, adds, t)) == ShaOf(o, adds);
    }
    if adds != [] && Due(Last(adds), t) ==> Due(Last(adds), if more == [] then t' else more[0].t0) {
      ChainOnlyGrows(o, adds, more, t, t');
    }
  }

  /** Between two looks with no commit in between the branch moves by at most one edge. */
  lemma LookMovesOneEdge(o: Origin, adds: seq<Added>, t: Time, t': Time)
    requires t <= t'
    ensures Chain(o, adds, t') == Chain(o, adds, t)
         || (adds != [] && Chain(o, adds, t') == Chain(o, adds, t) + [ShaOf(o, adds)])
  {
  }

  /** Consecutive members of the chain are child and parent. */
  lemma {:induction false} ChainEdges(o: Origin, adds: seq<Added>, t: Time, k: nat) returns (i: nat)
    requires 0 < k < |Chain(o, adds, t)|
    ensures 0 < i <= |adds| && Chain(o, adds, t)[k] == ShaOf(o, adds[..i])
    ensures CommitFor(o, adds[..i]).parents == [Chain(o, adds, t)[k - 1]]
    decreases |adds|
  {
    var base := Chain(o, Front(adds), Last(adds).t0);
    if k < |base| {
      i := ChainEdges(o, Front(adds), Last(adds).t0, k);
      assert Front(adds)[..i] == adds[..i];
    } else {
      i := |adds|;
      assert adds[..i] == adds;
    }
  }

  /** The branch's visible commit when request `i` (counted from 1) was made. */
  ghost function ParentOf(o: Origin, adds: seq<Added>, i: nat): Sha
    requires 0 < i <= |adds|
  {
    VisibleAt(o, adds[..i - 1], adds[i - 1].t0)
  }

  lemma ParentOfIsParent(o: Origin, adds: seq<Added>, i: nat)
    requires 0 < i <= |adds|
    ensures CommitFor(o, adds[..i]).parents == [ParentOf(o, adds, i)]
  {
    assert Front(adds[..i]) == adds[..i - 1];
  }

  // ----- commits never coincide -----

  /** Two different requests never produce the same SHA, nor the root's. */
  lemma ShasDistinct(o: Origin, adds: seq<Added>, i: nat, j: nat)
    requires CollisionFree(o.hash) && 0 < i < j <= |adds|
    ensures ShaOf(o, adds[..i]) != ShaOf(o, adds[..j])
  {
    if ShaOf(o, adds[..i]) == ShaOf(o, adds[..j]) {
      SameHashSameObject(o.hash, CommitFor(o, adds[..i]), CommitFor(o, adds[..j]));
      MessageInjective(i, j, o.branch);
    }
  }

  ghost predicate RootedAt(o: Origin, files: Files, t: Time) {
    o.root == o.hash(CommitOf(o.hash, None, files, INITIAL_MESSAGE, t))
  }

  lemma RootDistinct(o: Origin, files: Files, t: Time, adds: seq<Added>)
    requires CollisionFree(o.hash) && adds != [] && RootedAt(o, files, t)
    ensures ShaOf(o, adds) != o.root
  {
    if ShaOf(o, adds) == o.root {
      SameHashSameObject(o.hash, CommitFor(o, adds), CommitOf(o.hash, None, files, INITIAL_MESSAGE, t));
    }
  }

  // ----- the fate of every commit -----

  /** The first time after request `i` (counted from 1) at which its commit could still be replaced. */
  function DecidedAt(adds: seq<Added>, i: nat, t: Time): Time
    requires 0 < i <= |adds|
  {
    if i < |adds| then adds[i].t0 else t
  }

  /** Commit `i` is on the visible history at `t` exactly when it was due before the next request. */
  lemma {:induction false} SurfacesIff(o: Origin, files: Files, rt: Time, adds: seq<Added>, i: nat, t: Time)
    requires CollisionFree(o.hash) && RootedAt(o, files, rt) && 0 < i <= |adds|
    ensures ShaOf(o, adds[..i]) in Chain(o, adds, t) <==> Due(adds[i - 1], DecidedAt(adds, i, t))
    decreases |adds|
  {
    hide CommitFor;
    assert adds[..|adds|] == adds;
    if i < |adds| {
      SurfacesIff(o, files, rt, Front(adds), i, Last(adds).t0);
      assert Front(adds)[..i] == adds[..i];
      ShasDistinct(o, adds, i, |adds|);
    } else {
      NewestIsNew(o, files, rt, adds, Front(adds), Last(adds).t0);
    }
  }

  /** The newest commit is on no earlier chain. */
  lemma {:induction false} NewestIsNew(o: Origin, files: Files, rt: Time, adds: seq<Added>, front: seq<Added>, t: Time)
    requires CollisionFree(o.hash) && RootedAt(o, files, rt)
    requires front <= adds && |front| < |adds|
    ensures ShaOf(o, adds) !in Chain(o, front, t)
    decreases |front|
  {
    RootDistinct(o, files, rt, adds);
    if front != [] {
      NewestIsNew(o, files, rt, adds, Front(front), Last(front).t0);
      assert adds[..|front|] == front && adds[..|adds|] == adds;
      ShasDistinct(o, adds, |front|, |adds|);
    }
  }

  /** How many commits were replaced while still pending. */
  function Superseded(adds: seq<Added>): nat {
    if |adds| < 2 then 0
    else Superseded(Front(adds)) + if Due(adds[|adds| - 2], Last(adds).t0) then 0 else 1
  }

  predicate StillPending(adds: seq<Added>, t: Time) {
    adds != [] && !Due(Last(adds), t)
  }

  /** Nothing is lost: visible, superseded and pending commits add up to all commits. */
  lemma {:induction false} Conservation(o: Origin, adds: seq<Added>, t: Time)
    ensures |Chain(o, adds, t)| + Superseded(adds) + (if StillPending(adds, t) then 1 else 0) == |adds| + 1
    decreases |adds|
  {
    if adds != [] { Conservation(o, Front(adds), Last(adds).t0); }
  }

  /** A commit replaced while pending is never visible, nor an ancestor of anything visible, again. */
  lemma SupersededNeverSurfaces(o: Origin, files: Files, rt: Time, adds: seq<Added>, more: seq<Added>, i: nat, t: Time)
    requires CollisionFree(o.hash) && RootedAt(o, files, rt)
    requires 0 < i < |adds| && !Due(adds[i - 1], adds[i].t0)
    ensures ShaOf(o, adds[..i]) !in Chain(o, adds + more, t)
  {
    assert (adds + more)[..i] == adds[..i];
    SurfacesIff(o, files, rt, adds + more, i, t);
  }

  // ----- one reading -----

  /**
   * If request `i` (counted from 0) had been made at another time, the branch would show the same commit at `t`
   * exactly when the commit before it was due at both times or at neither.
   */
  lemma {:induction false} OneReadingMatters(o: Origin, files: Files, rt: Time, adds: seq<Added>, i: nat, t0: Time,
                                             t: Time)
    requires CollisionFree(o.hash) && RootedAt(o, files, rt) && i < |adds|
    ensures VisibleAt(o, adds, t) == VisibleAt(o, adds[i := adds[i].(t0 := t0)], t)
       <==> i == 0 || (Due(adds[i - 1], adds[i].t0) <==> Due(adds[i - 1], t0))
    decreases |adds|
  {
    var adds' := adds[i := adds[i].(t0 := t0)];
    var x, y := Last(adds).t0, Last(adds').t0;
    ParentsAgree(o, files, rt, adds, i, t0);
    assert Last(adds') == Last(adds).(t0 := y);
    VisibleNewest(o, adds, t);
    VisibleNewest(o, adds', t);
    if VisibleAt(o, Front(adds), x) != VisibleAt(o, Front(adds'), y) { OtherParentOtherSha(o, adds, adds'); }
  }

  /** The same of the commit that the newest one sits on. */
  lemma {:induction false} ParentsAgree(o: Origin, files: Files, rt: Time, adds: seq<Added>, i: nat, t0: Time)
    requires CollisionFree(o.hash) && RootedAt(o, files, rt) && i < |adds|
    ensures var adds' := adds[i := adds[i].(t0 := t0)];
            (VisibleAt(o, Front(adds), Last(adds).t0) == VisibleAt(o, Front(adds'), Last(adds').t0)
             <==> i == 0 || (Due(adds[i - 1], adds[i].t0) <==> Due(adds[i - 1], t0)))
    decreases |adds|, 0
  {
    var adds' := adds[i := adds[i].(t0 := t0)];
    var front := Front(adds);
    if i < |front| {
      assert Front(adds') == front[i := front[i].(t0 := t0)];
      OneReadingMatters(o, files, rt, front, i, t0, Last(adds).t0);
    } else {
      assert Front(adds') == front;
      if i > 0 { NewestIsNew(o, files, rt, front, Front(front), Last(front).t0); }
    }
  }

  lemma VisibleNewest(o: Origin, adds: seq<Added>, t: Time)
    requires adds != []
    ensures VisibleAt(o, adds, t)
         == if Due(Last(adds), t) then ShaOf(o, adds) else VisibleAt(o, Front(adds), Last(adds).t0)
  {
  }

  lemma OtherParentOtherSha(o: Origin, adds: seq<Added>, adds': seq<Added>)
    requires CollisionFree(o.hash) && adds != [] && adds' != []
    requires VisibleAt(o, Front(adds), Last(adds).t0) != VisibleAt(o, Front(adds'), Last(adds').t0)
    ensures ShaOf(o, adds) != ShaOf(o, adds')
  {
    if ShaOf(o, adds) == ShaOf(o, adds') {
      SameHashSameObject(o.hash, CommitFor(o, adds), CommitFor(o, adds'));
    }
  }
}
