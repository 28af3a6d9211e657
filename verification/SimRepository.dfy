// gitsim.SimRepo: pushes, and the push events built from what they recorded.
module SimRepository {
  import opened Objects
  import opened Pushes
  import opened Timeline
  import opened Repository

  datatype PushEvent = PushEvent(host: string, owner: string, repo: string, branch: string, before: Sha, after: Sha)

  class SimRepo {
    const vendor: string
    const repo: Repo
    var shaBranch: map<Sha, string>   // SHA to the branch it was pushed on
    var prevSHA: map<string, Sha>     // branch to what it showed before its last push

    constructor (vendor: string, repo: Repo)
      ensures this.vendor == vendor && this.repo == repo && shaBranch == map[] && prevSHA == map[]
    {
      this.vendor, this.repo := vendor, repo;
      shaBranch, prevSHA := map[], map[];
    }

    function Books(): Tables
      reads this
    {
      Tables(shaBranch, prevSHA)
    }

    /** Push, with its options settled; the tables change only when the commit was added. */
    method Push(branch: string, p: Pushing) returns (r: Result<Sha>)
      requires repo.Valid()
      modifies this, repo.storer, repo.branches.Values
      ensures repo.Valid() && repo.View() == AfterPush(repo.storer.hash, old(repo.View()), branch, p)
      ensures r.Ok? <==> branch in repo.branches && p.files.Some?
      ensures r.Ok? ==> r.value == PushedSha(repo.storer.hash, old(repo.View()), branch, p)
      ensures Books() == if r.Ok? then Recorded(old(Books()), branch, r.value, Seen(old(repo.View()), branch, p))
                         else old(Books())
      ensures r.Ok? ==> BuildEvent(r.value, "").before == Seen(old(repo.View()), branch, p)
      ensures r.Ok? ==> BuildEvent(r.value, "").branch == if branch == "" then repo.defaultBranch else branch
    {
      hide AfterPush, PushedSha, Seen;
      var prev;
      prev, r := LookAndAdd(branch, p);
      if r.Err? { return; }
      Remember(r.value, branch, prev);
    }

    /** The table writes, under SimRepo's own lock. */
    method Remember(sha: Sha, branch: string, prev: Sha)
      requires repo.Valid()
      modifies this
      ensures repo.Valid() && repo.View() == old(repo.View())
      ensures Books() == Recorded(old(Books()), branch, sha, prev)
    {
      shaBranch := shaBranch[sha := branch];
      prevSHA := prevSHA[branch := prev];
    }

    /** The two calls on the repository, each under its lock. */
    method LookAndAdd(branch: string, p: Pushing) returns (prev: Sha, r: Result<Sha>)
      requires repo.Valid()
      modifies repo.storer, repo.branches.Values
      ensures repo.Valid() && repo.View() == AfterPush(repo.storer.hash, old(repo.View()), branch, p)
      ensures r.Ok? <==> branch in repo.branches && p.files.Some?
      ensures r.Ok? ==> r.value == PushedSha(repo.storer.hash, old(repo.View()), branch, p)
      ensures r.Ok? ==> prev == Seen(old(repo.View()), branch, p)
    {
      var ok;
      prev, ok := repo.VisibleCommit(branch, p.tv);
      r := repo.AddCommit(branch, p.delay, p.files, p.t0, p.t1, p.t2);
    }

    /** buildEvent: an empty `branch` is looked up by SHA and defaults to the repository's own. */
    function BuildEvent(sha: Sha, branch: string): (e: PushEvent)
      reads this, repo
      ensures e.after == sha && e.host == repo.host && e.owner == repo.owner && e.repo == repo.name
      ensures branch != "" ==>
                e.branch == branch && e.before == if branch in prevSHA then prevSHA[branch] else ""
      ensures branch == "" && sha !in shaBranch ==> e.branch == repo.defaultBranch
    {
      var b := BranchOf(Books(), sha, branch);
      PushEvent(repo.host, repo.owner, repo.name, if b == "" then repo.defaultBranch else b,
                BeforeOf(Books(), sha, branch), sha)
    }
  }

  // ----- when Before is the parent of After -----

  /**
   * A push that reads the visible commit at `tv` and adds its own at `a.t0` records the
   * parent of its commit exactly when no promotion falls due in between.
   */
  lemma PrevIsParentIff(o: Origin, files: Files, rt: Time, adds: seq<Added>, a: Added, tv: Time)
    requires CollisionFree(o.hash) && RootedAt(o, files, rt) && tv <= a.t0
    ensures CommitFor(o, adds + [a]).parents == [VisibleAt(o, adds, tv)]
       <==> !(StillPending(adds, tv) && !StillPending(adds, a.t0))
  {
    assert Front(adds + [a]) == adds && Last(adds + [a]) == a;
    if adds != [] {
      NewestIsNew(o, files, rt, adds, Front(adds), Last(adds).t0);
    }
  }

  /** None of the commits from the `i`-th on was due by the time its fate was decided, the last one by `t`. */
  predicate NoneSurfaced(adds: seq<Added>, i: nat, t: Time)
    requires 0 < i <= |adds|
  {
    forall j :: i <= j <= |adds| ==> !Surfaced(adds, j, t)
  }

  predicate Surfaced(adds: seq<Added>, j: nat, t: Time)
    requires 0 < j <= |adds|
  {
    Due(adds[j - 1], DecidedAt(adds, j, t))
  }

  /** A later look shows the parent of an earlier commit exactly when nothing from that commit on has surfaced. */
  lemma {:induction false} EarlierParentIff(o: Origin, files: Files, rt: Time, adds: seq<Added>, i: nat, t: Time)
    requires CollisionFree(o.hash) && RootedAt(o, files, rt) && 0 < i <= |adds|
    ensures VisibleAt(o, adds, t) == ParentOf(o, adds, i) <==> NoneSurfaced(adds, i, t)
    decreases |adds|
  {
    var n := |adds|;
    assert Surfaced(adds, n, t) <==> Due(adds[n - 1], t);
    if Due(adds[n - 1], t) {
      NewestIsNew(o, files, rt, adds, adds[..i - 1], adds[i - 1].t0);
    } else if i < n {
      var front := Front(adds);
      EarlierParentIff(o, files, rt, front, i, adds[n - 1].t0);
      assert front[..i - 1] == adds[..i - 1] && front[i - 1] == adds[i - 1];
      assert VisibleAt(o, adds, t) == VisibleAt(o, front, adds[n - 1].t0);
      NoneSurfacedBefore(adds, i, t);
    }
  }

  lemma NoneSurfacedBefore(adds: seq<Added>, i: nat, t: Time)
    requires 0 < i < |adds| && !Due(Last(adds), t)
    ensures NoneSurfaced(adds, i, t) <==> NoneSurfaced(Front(adds), i, Last(adds).t0)
  {
    var front, t0, n := Front(adds), Last(adds).t0, |adds|;
    forall j | i <= j < n
      ensures Surfaced(front, j, t0) == Surfaced(adds, j, t)
    {
      assert front[j - 1] == adds[j - 1] && DecidedAt(front, j, t0) == DecidedAt(adds, j, t);
    }
    if NoneSurfaced(front, i, t0) {
      forall j | i <= j <= n
        ensures !Surfaced(adds, j, t)
      {
        if j < n { assert !Surfaced(front, j, t0); }
      }
    } else {
      var j :| i <= j <= |front| && Surfaced(front, j, t0);
      assert Surfaced(adds, j, t);
    }
  }

  /**
   * The look of a later push decides, not its commit: here the first commit falls due between the two, so the
   * second commit has another parent, and yet what the push saw is still the parent of the first.
   */
  lemma LookBeforePromotion(o: Origin, files: Files, rt: Time)
    requires CollisionFree(o.hash) && RootedAt(o, files, rt)
    ensures var a1, a2 := Added(10, files, 0, 0, 0), Added(0, files, 11, 11, 11);
            && VisibleAt(o, [a1], 9) == ParentOf(o, [a1, a2], 1)
            && VisibleAt(o, [a1], 9) != ParentOf(o, [a1, a2], 2)
  {
    var a1, a2 := Added(10, files, 0, 0, 0), Added(0, files, 11, 11, 11);
    var adds := [a1, a2];
    assert adds[..0] == [] && adds[..1] == [a1] && Front([a1]) == [] && Last([a1]) == a1;
    assert ParentOf(o, adds, 1) == VisibleAt(o, [], 0) == o.root && VisibleAt(o, [a1], 9) == o.root;
    assert ParentOf(o, adds, 2) == VisibleAt(o, [a1], 11) == ShaOf(o, [a1]);
    NewestIsNew(o, files, rt, [a1], [], 0);
  }
}
