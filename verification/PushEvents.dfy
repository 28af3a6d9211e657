// Push events built after several pushes, with anything in between: when Before is the parent of After.
module PushEvents {
  import opened Objects
  import opened TreeSpec
  import opened RepoSpec
  import opened RepoInvariant
  import opened Timeline
  import opened RepoHistory
  import opened Pushes
  import opened SimRepository
  import opened PushRuns

  /** One call on a SimRepo: a push to its branch, or any call that goes past its tables. */
  datatype Call = PushCall(p: Pushing) | Direct(e: Event)

  ghost function AfterCall(hash: Object -> Sha, v: RepoView, branch: string, c: Call): (r: RepoView)
    requires CollisionFree(hash) && v.defaultBranch in v.branches
    ensures r.defaultBranch == v.defaultBranch && r.branches.Keys == v.branches.Keys
  {
    match c
    case PushCall(p) => AfterPush(hash, v, branch, p)
    case Direct(e) => Step(hash, v, e)
  }

  /** The repository after the first `n` calls. */
  ghost function AfterCalls(hash: Object -> Sha, v: RepoView, branch: string, cs: seq<Call>, n: nat): (r: RepoView)
    requires CollisionFree(hash) && v.defaultBranch in v.branches && n <= |cs|
    ensures r.defaultBranch == v.defaultBranch && r.branches.Keys == v.branches.Keys
  {
    if n == 0 then v else AfterCall(hash, AfterCalls(hash, v, branch, cs, n - 1), branch, cs[n - 1])
  }

  /** Whether the call is a push that goes through. */
  predicate Lands(v: RepoView, branch: string, c: Call) {
    c.PushCall? && Goes(v, branch, c.p)
  }

  /** The SHA returned by call `i`, a push. */
  ghost function ShaOfCall(hash: Object -> Sha, v: RepoView, branch: string, cs: seq<Call>, i: nat): Sha
    requires CollisionFree(hash) && v.defaultBranch in v.branches && i < |cs| && cs[i].PushCall?
  {
    PushedSha(hash, AfterCalls(hash, v, branch, cs, i), branch, cs[i].p)
  }

  /** What call `j`, a push, saw. */
  ghost function SeenBy(hash: Object -> Sha, v: RepoView, branch: string, cs: seq<Call>, j: nat): Sha
    requires CollisionFree(hash) && v.defaultBranch in v.branches && j < |cs| && cs[j].PushCall?
  {
    Seen(AfterCalls(hash, v, branch, cs, j), branch, cs[j].p)
  }

  /** The tables after the first `n` calls. */
  ghost function TablesAfter(hash: Object -> Sha, v: RepoView, books: Tables, branch: string, cs: seq<Call>, n: nat)
    : Tables
    requires CollisionFree(hash) && v.defaultBranch in v.branches && n <= |cs|
  {
    if n == 0 then books
    else
      var before := TablesAfter(hash, v, books, branch, cs, n - 1);
      if !Lands(v, branch, cs[n - 1]) then before
      else Recorded(before, branch, ShaOfCall(hash, v, branch, cs, n - 1), SeenBy(hash, v, branch, cs, n - 1))
  }

  /** Calls that are all pushes are the pushes of the scenarios. */
  lemma {:induction false} PushesAreCalls(hash: Object -> Sha, v: RepoView, books: Tables, branch: string,
                                          ps: seq<Pushing>, cs: seq<Call>, n: nat)
    requires CollisionFree(hash) && v.defaultBranch in v.branches && n <= |ps| == |cs|
    requires forall i :: 0 <= i < |ps| ==> cs[i] == PushCall(ps[i])
    ensures AfterCalls(hash, v, branch, cs, n) == AfterPushes(hash, v, branch, ps, n)
    ensures forall i :: 0 <= i < n ==> PushedShas(hash, v, branch, ps, n)[i] == ShaOfCall(hash, v, branch, cs, i)
    ensures AllGo(v, branch, ps, n) ==>
              TablesAfter(hash, v, books, branch, cs, n) == BooksAfter(hash, v, books, branch, ps, n)
  {
    hide AfterPush, PushedSha, Seen, AfterCalls, AfterPushes, Goes;
    SameAfter(hash, v, branch, ps, cs, n);
    if n > 0 {
      PushesAreCalls(hash, v, books, branch, ps, cs, n - 1);
      SameAfter(hash, v, branch, ps, cs, n - 1);
    }
  }

  lemma {:induction false} SameAfter(hash: Object -> Sha, v: RepoView, branch: string, ps: seq<Pushing>, cs: seq<Call>,
                                     n: nat)
    requires CollisionFree(hash) && v.defaultBranch in v.branches && n <= |ps| == |cs|
    requires forall i :: 0 <= i < |ps| ==> cs[i] == PushCall(ps[i])
    ensures AfterCalls(hash, v, branch, cs, n) == AfterPushes(hash, v, branch, ps, n)
  {
    hide AfterPush;
    if n > 0 { SameAfter(hash, v, branch, ps, cs, n - 1); }
  }

  /** Call `j` is the last push that goes through. */
  predicate LastPush(v: RepoView, branch: string, cs: seq<Call>, j: nat) {
    j < |cs| && Lands(v, branch, cs[j]) && forall k :: j < k < |cs| ==> !Lands(v, branch, cs[k])
  }

  /** An event for any of several pushes carries what the last one saw. */
  lemma BeforeIsLastSeen(hash: Object -> Sha, v: RepoView, books: Tables, branch: string, cs: seq<Call>, i: nat, j: nat)
    requires CollisionFree(hash) && v.defaultBranch in v.branches
    requires LastPush(v, branch, cs, j) && i <= j && Lands(v, branch, cs[i])
    ensures var sha := ShaOfCall(hash, v, branch, cs, i); var books' := TablesAfter(hash, v, books, branch, cs, |cs|);
            && sha in books'.shaBranch && books'.shaBranch[sha] == branch
            && BeforeOf(books', sha, "") == SeenBy(hash, v, branch, cs, j)
  {
    hide TablesAfter, ShaOfCall, SeenBy;
    ShaRemembered(hash, v, books, branch, cs, i, |cs|);
    SeenRemembered(hash, v, books, branch, cs, j, |cs|);
  }

  lemma {:induction false} ShaRemembered(hash: Object -> Sha, v: RepoView, books: Tables, branch: string,
                                         cs: seq<Call>, i: nat, n: nat)
    requires CollisionFree(hash) && v.defaultBranch in v.branches && i < n <= |cs| && Lands(v, branch, cs[i])
    ensures var sha := ShaOfCall(hash, v, branch, cs, i); var books' := TablesAfter(hash, v, books, branch, cs, n);
            sha in books'.shaBranch && books'.shaBranch[sha] == branch
  {
    hide ShaOfCall, SeenBy;
    if i < n - 1 { ShaRemembered(hash, v, books, branch, cs, i, n - 1); }
  }

  lemma {:induction false} SeenRemembered(hash: Object -> Sha, v: RepoView, books: Tables, branch: string,
                                          cs: seq<Call>, j: nat, n: nat)
    requires CollisionFree(hash) && v.defaultBranch in v.branches && LastPush(v, branch, cs, j) && j < n <= |cs|
    ensures var books' := TablesAfter(hash, v, books, branch, cs, n);
            branch in books'.prevSHA && books'.prevSHA[branch] == SeenBy(hash, v, branch, cs, j)
  {
    hide ShaOfCall, SeenBy;
    if j < n - 1 { SeenRemembered(hash, v, books, branch, cs, j, n - 1); }
  }

  // ----- on the branch's timeline -----

  /** The branch's requests and readings after the first `n` calls. */
  function Tracked(branch: string, tr: Track, cs: seq<Call>, n: nat): Track
    requires n <= |cs|
  {
    if n == 0 then tr
    else
      match cs[n - 1]
      case PushCall(p) => Pushed(branch, Tracked(branch, tr, cs, n - 1), p)
      case Direct(e) => Follow(branch, Tracked(branch, tr, cs, n - 1), e)
  }

  lemma {:induction false} TrackedGrows(branch: string, tr: Track, cs: seq<Call>, i: nat, n: nat)
    requires i <= n <= |cs|
    ensures Tracked(branch, tr, cs, i).adds <= Tracked(branch, tr, cs, n).adds
  {
    if i < n { TrackedGrows(branch, tr, cs, i, n - 1); }
  }

  lemma TrackedPush(branch: string, tr: Track, cs: seq<Call>, i: nat)
    requires i < |cs| && cs[i].PushCall? && cs[i].p.files.Some?
    ensures var before, p := Tracked(branch, tr, cs, i), cs[i].p;
            var a := Added(p.delay, p.files.value, RequestedAt(before.top, p), p.t1, p.t2);
            Tracked(branch, tr, cs, i + 1) == Track(before.adds + [a], None)
  {
    PushAdds(branch, Tracked(branch, tr, cs, i), cs[i].p);
  }

  lemma {:induction false} CallsReach(o: Origin, tr: Track, v: RepoView, cs: seq<Call>, n: nat)
    requires CollisionFree(o.hash) && Reachable(o, tr, v) && n <= |cs|
    ensures v.defaultBranch in v.branches
    ensures Reachable(o, Tracked(o.branch, tr, cs, n), AfterCalls(o.hash, v, o.branch, cs, n))
  {
    hide Reachable, AfterPush, Pushed, Step, Follow;
    HasMain(o, tr, v);
    if n > 0 {
      CallsReach(o, tr, v, cs, n - 1);
      var tr', u := Tracked(o.branch, tr, cs, n - 1), AfterCalls(o.hash, v, o.branch, cs, n - 1);
      match cs[n - 1]
      case PushCall(p) => PushOnTimeline(o, tr', u, p);
      case Direct(e) => StepKeepsReachable(o, tr', u, e);
    }
  }

  /** The stored parent of a pushed commit is what was visible at its own request. */
  lemma ParentOfPushed(o: Origin, tr: Track, v: RepoView, cs: seq<Call>, i: nat, x: Sha)
    requires CollisionFree(o.hash) && Reachable(o, tr, v) && i < |cs| && cs[i].PushCall? && cs[i].p.files.Some?
    ensures v.defaultBranch in v.branches
    ensures ChildOf(AfterCalls(o.hash, v, o.branch, cs, |cs|).objects, ShaOfCall(o.hash, v, o.branch, cs, i), x)
       <==> x == VisibleAt(o, Tracked(o.branch, tr, cs, i).adds, RequestedAt(Tracked(o.branch, tr, cs, i).top, cs[i].p))
  {
    hide Reachable, AfterCalls, PushedSha, VisibleAt, CommitFor, ShaOf, Tracked, RequestedAt, Pushed;
    CallsReach(o, tr, v, cs, i);
    CallsReach(o, tr, v, cs, |cs|);
    TrackedPush(o.branch, tr, cs, i);
    TrackedGrows(o.branch, tr, cs, i + 1, |cs|);
    PushOnTimeline(o, Tracked(o.branch, tr, cs, i), AfterCalls(o.hash, v, o.branch, cs, i), cs[i].p);
    PushAdds(o.branch, Tracked(o.branch, tr, cs, i), cs[i].p);
    HoldsPrefix(o, Tracked(o.branch, tr, cs, |cs|), AfterCalls(o.hash, v, o.branch, cs, |cs|),
                Tracked(o.branch, tr, cs, i + 1).adds);
    NewestParent(o, Tracked(o.branch, tr, cs, i + 1).adds);
  }

  lemma NewestParent(o: Origin, adds: seq<Added>)
    requires adds != []
    ensures CommitFor(o, adds).Commit? && CommitFor(o, adds).parents == [VisibleAt(o, Front(adds), Last(adds).t0)]
    ensures ShaOf(o, adds) == o.hash(CommitFor(o, adds))
  {
  }

  lemma HoldsPrefix(o: Origin, tr: Track, v: RepoView, adds: seq<Added>)
    requires Reachable(o, tr, v) && adds != [] && adds <= tr.adds
    ensures Holds(o.hash, v.objects, CommitFor(o, adds))
  {
    hide CommitFor;
    assert tr.adds[..|adds|] == adds;
    assert Holds(o.hash, v.objects, CommitFor(o, tr.adds[..|adds|]));
  }

  /**
   * prevSHA is kept per branch, so an event built for push `i` after the last one that went through, `j`, carries
   * what `j` saw, whatever other calls came between and after. For an earlier push that is the parent of its commit
   * exactly when neither it nor any commit after it had become visible by that look; for the last push itself,
   * exactly when nothing pending fell due between its look and its commit.
   */
  lemma BeforeIsParentIff(o: Origin, files: Files, rt: Time, tr: Track, v: RepoView, books: Tables, cs: seq<Call>,
                          i: nat, j: nat)
    requires CollisionFree(o.hash) && RootedAt(o, files, rt) && Reachable(o, tr, v)
    requires LastPush(v, o.branch, cs, j) && i <= j && Lands(v, o.branch, cs[i])
    ensures v.defaultBranch in v.branches
    ensures i < j ==> |Tracked(o.branch, tr, cs, i).adds| < |Tracked(o.branch, tr, cs, j).adds|
    ensures var before, p, sha := Tracked(o.branch, tr, cs, j), cs[j].p, ShaOfCall(o.hash, v, o.branch, cs, i);
            var seen := Latest(before.top, p.tv);
            (ChildOf(AfterCalls(o.hash, v, o.branch, cs, |cs|).objects, sha,
                     BeforeOf(TablesAfter(o.hash, v, books, o.branch, cs, |cs|), sha, ""))
             <==> if i < j then NoneSurfaced(before.adds, |Tracked(o.branch, tr, cs, i).adds| + 1, seen)
                  else !(StillPending(before.adds, seen) && !StillPending(before.adds, RequestedAt(before.top, p))))
  {
    hide Reachable, AfterCalls, ShaOfCall, TablesAfter, BeforeOf, VisibleAt, NoneSurfaced, ChildOf, Seen, Tracked,
         StillPending, RootedAt, RequestedAt, Latest, ShaOf;
    HasMain(o, tr, v);
    BeforeIsLastSeen(o.hash, v, books, o.branch, cs, i, j);
    CallsReach(o, tr, v, cs, j);
    PushOnTimeline(o, Tracked(o.branch, tr, cs, j), AfterCalls(o.hash, v, o.branch, cs, j), cs[j].p);
    ParentOfPushed(o, tr, v, cs, i, SeenBy(o.hash, v, o.branch, cs, j));
    SeenIsParentIff(o, files, rt, tr, cs, i, j);
  }

  /** The same on the timeline. */
  lemma SeenIsParentIff(o: Origin, files: Files, rt: Time, tr: Track, cs: seq<Call>, i: nat, j: nat)
    requires CollisionFree(o.hash) && RootedAt(o, files, rt)
    requires i <= j < |cs| && cs[i].PushCall? && cs[i].p.files.Some? && cs[j].PushCall? && cs[j].p.files.Some?
    ensures i < j ==> |Tracked(o.branch, tr, cs, i).adds| < |Tracked(o.branch, tr, cs, j).adds|
    ensures var early, before, p := Tracked(o.branch, tr, cs, i), Tracked(o.branch, tr, cs, j), cs[j].p;
            var seen := Latest(before.top, p.tv);
            (VisibleAt(o, before.adds, seen) == VisibleAt(o, early.adds, RequestedAt(early.top, cs[i].p))
             <==> if i < j then NoneSurfaced(before.adds, |early.adds| + 1, seen)
                  else !(StillPending(before.adds, seen) && !StillPending(before.adds, RequestedAt(before.top, p))))
  {
    hide Tracked, VisibleAt, CommitFor, ShaOf, StillPending, NoneSurfaced, RootedAt;
    var early, before, p := Tracked(o.branch, tr, cs, i), Tracked(o.branch, tr, cs, j), cs[j].p;
    var seen := Latest(before.top, p.tv);
    TrackedPush(o.branch, tr, cs, i);
    if i < j {
      TrackedGrows(o.branch, tr, cs, i + 1, j);
      EarlierParentIff(o, files, rt, before.adds, |early.adds| + 1, seen);
      assert before.adds[..|early.adds|] == early.adds;
      assert before.adds[|early.adds|] == Tracked(o.branch, tr, cs, i + 1).adds[|early.adds|];
    } else {
      var a := Added(p.delay, p.files.value, RequestedAt(before.top, p), p.t1, p.t2);
      PrevIsParentIff(o, files, rt, before.adds, a, seen);
      NewestParent(o, before.adds + [a]);
      assert Front(before.adds + [a]) == before.adds;
    }
  }
}
