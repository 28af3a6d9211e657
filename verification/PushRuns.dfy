// Several pushes on one branch, as the scenarios make them.
module PushRuns {
  import opened Objects
  import opened RepoSpec
  import opened RepoInvariant
  import opened Timeline
  import opened RepoHistory
  import opened Pushes
  import opened SimRepository

  /** The repository after the first `n` pushes of `ps`. */
  ghost function AfterPushes(hash: Object -> Sha, v: RepoView, branch: string, ps: seq<Pushing>, n: nat): (r: RepoView)
    requires CollisionFree(hash) && v.defaultBranch in v.branches && n <= |ps|
    ensures r.defaultBranch == v.defaultBranch && r.branches.Keys == v.branches.Keys
  {
    if n == 0 then v else AfterPush(hash, AfterPushes(hash, v, branch, ps, n - 1), branch, ps[n - 1])
  }

  ghost function PushedShas(hash: Object -> Sha, v: RepoView, branch: string, ps: seq<Pushing>, n: nat): (r: seq<Sha>)
    requires CollisionFree(hash) && v.defaultBranch in v.branches && n <= |ps|
    ensures |r| == n
  {
    if n == 0 then []
    else
      PushedShas(hash, v, branch, ps, n - 1)
      + [PushedSha(hash, AfterPushes(hash, v, branch, ps, n - 1), branch, ps[n - 1])]
  }

  /** The first `n` pushes all go through. */
  predicate AllGo(v: RepoView, branch: string, ps: seq<Pushing>, n: nat)
    requires n <= |ps|
  {
    forall i :: 0 <= i < n ==> Goes(v, branch, ps[i])
  }

  /** The tables after the first `n` pushes, all of which go through. */
  ghost function BooksAfter(hash: Object -> Sha, v: RepoView, books: Tables, branch: string, ps: seq<Pushing>, n: nat)
    : Tables
    requires CollisionFree(hash) && v.defaultBranch in v.branches && n <= |ps|
  {
    if n == 0 then books
    else
      var u := AfterPushes(hash, v, branch, ps, n - 1);
      Recorded(BooksAfter(hash, v, books, branch, ps, n - 1), branch, PushedSha(hash, u, branch, ps[n - 1]),
               Seen(u, branch, ps[n - 1]))
  }

  /** How many pushes go through before the first that fails. */
  function Going(v: RepoView, branch: string, ps: seq<Pushing>): (n: nat)
    ensures n <= |ps| && AllGo(v, branch, ps, n) && (n < |ps| ==> !Goes(v, branch, ps[n]))
  {
    GoingFrom(v, branch, ps, 0)
  }

  function GoingFrom(v: RepoView, branch: string, ps: seq<Pushing>, i: nat): (n: nat)
    requires i <= |ps| && AllGo(v, branch, ps, i)
    ensures i <= n <= |ps| && AllGo(v, branch, ps, n) && (n < |ps| ==> !Goes(v, branch, ps[n]))
    decreases |ps| - i
  {
    if i == |ps| || !Goes(v, branch, ps[i]) then i else GoingFrom(v, branch, ps, i + 1)
  }

  /** How many are made, counting the one that fails. */
  function Made(v: RepoView, branch: string, ps: seq<Pushing>): (n: nat)
    ensures n <= |ps|
  {
    var n := Going(v, branch, ps);
    if n < |ps| then n + 1 else n
  }

  /** `u`, `shas` and `books'` are what the first `i` pushes, all of which went through, leave and return. */
  ghost predicate SoFar(hash: Object -> Sha, v: RepoView, books: Tables, branch: string, ps: seq<Pushing>, i: nat,
                        u: RepoView, shas: seq<Sha>, books': Tables)
    requires CollisionFree(hash) && v.defaultBranch in v.branches
  {
    && i <= |ps| && AllGo(v, branch, ps, i) && u == AfterPushes(hash, v, branch, ps, i)
    && shas == PushedShas(hash, v, branch, ps, i) && books' == BooksAfter(hash, v, books, branch, ps, i)
  }

  lemma SoFarOneMore(hash: Object -> Sha, v: RepoView, books: Tables, branch: string, ps: seq<Pushing>, i: nat,
                     u: RepoView, shas: seq<Sha>, books': Tables)
    requires CollisionFree(hash) && v.defaultBranch in v.branches && i < |ps|
    requires SoFar(hash, v, books, branch, ps, i, u, shas, books')
    ensures u.defaultBranch in u.branches
    ensures Goes(u, branch, ps[i]) ==>
              SoFar(hash, v, books, branch, ps, i + 1, AfterPush(hash, u, branch, ps[i]),
                    shas + [PushedSha(hash, u, branch, ps[i])],
                    Recorded(books', branch, PushedSha(hash, u, branch, ps[i]), Seen(u, branch, ps[i])))
    ensures !Goes(u, branch, ps[i]) ==>
              Going(v, branch, ps) == i && AfterPush(hash, u, branch, ps[i]) == AfterPushes(hash, v, branch, ps, i + 1)
  {
    hide AfterPush, PushedSha, Seen;
    if !Goes(u, branch, ps[i]) { GoingStops(v, branch, ps, i); }
  }

  lemma GoingStops(v: RepoView, branch: string, ps: seq<Pushing>, i: nat)
    requires i <= |ps| && AllGo(v, branch, ps, i) && (i < |ps| ==> !Goes(v, branch, ps[i]))
    ensures Going(v, branch, ps) == i
  {
  }

  /** The push loop of RunMixed and RunPushN; the first failing push ends it. */
  method PushAll(r: SimRepo, branch: string, ps: seq<Pushing>) returns (shas: seq<Sha>, failed: Option<nat>)
    requires r.repo.Valid()
    modifies r, r.repo.storer, r.repo.branches.Values
    ensures r.repo.Valid()
    ensures var hash, v := r.repo.storer.hash, old(r.repo.View());
            var n := Going(v, branch, ps);
            && failed == (if n == |ps| then None else Some(n))
            && shas == PushedShas(hash, v, branch, ps, n)
            && r.repo.View() == AfterPushes(hash, v, branch, ps, Made(v, branch, ps))
            && r.Books() == BooksAfter(hash, v, old(r.Books()), branch, ps, n)
  {
    hide SoFar, AfterPush, PushedSha, Seen, Recorded, Sound, AllGo, Goes;
    shas := [];
    ghost var hash, v, books := r.repo.storer.hash, r.repo.View(), r.Books();
    SoFarAtFirst(hash, v, books, branch, ps);
    for i := 0 to |ps|
      invariant r.repo.Valid() && SoFar(hash, v, books, branch, ps, i, r.repo.View(), shas, r.Books())
    {
      SoFarOneMore(hash, v, books, branch, ps, i, r.repo.View(), shas, r.Books());
      ghost var u, before := r.repo.View(), shas;
      var sha := r.Push(branch, ps[i]);
      GoesHere(u, branch, ps[i]);
      if sha.Err? {
        SoFarAtEnd(hash, v, books, branch, ps, i, u, shas, r.Books());
        return shas, Some(i);
      }
      shas := shas + [sha.value];
    }
    SoFarAtEnd(hash, v, books, branch, ps, |ps|, r.repo.View(), shas, r.Books());
    failed := None;
  }

  lemma SoFarAtFirst(hash: Object -> Sha, v: RepoView, books: Tables, branch: string, ps: seq<Pushing>)
    requires CollisionFree(hash) && v.defaultBranch in v.branches
    ensures SoFar(hash, v, books, branch, ps, 0, v, [], books)
  {
  }

  lemma GoesHere(u: RepoView, branch: string, p: Pushing)
    ensures Goes(u, branch, p) <==> branch in u.branches && p.files.Some?
  {
  }

  lemma SoFarAtEnd(hash: Object -> Sha, v: RepoView, books: Tables, branch: string, ps: seq<Pushing>, i: nat,
                   u: RepoView, shas: seq<Sha>, books': Tables)
    requires CollisionFree(hash) && v.defaultBranch in v.branches
    requires SoFar(hash, v, books, branch, ps, i, u, shas, books') && (i < |ps| ==> Going(v, branch, ps) == i)
    ensures i == |ps| ==> Going(v, branch, ps) == i && u == AfterPushes(hash, v, branch, ps, i)
    ensures shas == PushedShas(hash, v, branch, ps, i) && books' == BooksAfter(hash, v, books, branch, ps, i)
    ensures Made(v, branch, ps) == if i < |ps| then i + 1 else i
  {
    if i == |ps| { GoingStops(v, branch, ps, i); }
  }

  // ----- the pushes on the branch's timeline -----

  /** The branch's requests and readings after one push, whether it goes through or not. */
  function Pushed(branch: string, tr: Track, p: Pushing): Track {
    Follow(branch, Follow(branch, tr, Look(branch, p.tv)), Add(branch, p.delay, p.files, p.t0, p.t1, p.t2))
  }

  /** The latest reading when the push asks for its commit: those before it, its look, and its own. */
  function RequestedAt(top: Option<Time>, p: Pushing): Time {
    Latest(Some(Latest(top, p.tv)), p.t0)
  }

  /** The same after the first `n` pushes. */
  function Grown(branch: string, tr: Track, ps: seq<Pushing>, n: nat): Track
    requires n <= |ps|
  {
    if n == 0 then tr else Pushed(branch, Grown(branch, tr, ps, n - 1), ps[n - 1])
  }

  /** The content of the first `n` commits can be read. */
  predicate AllRead(ps: seq<Pushing>, n: nat)
    requires n <= |ps|
  {
    forall i :: 0 <= i < n ==> ps[i].files.Some?
  }

  lemma PushAdds(branch: string, tr: Track, p: Pushing)
    requires p.files.Some?
    ensures var a := Added(p.delay, p.files.value, RequestedAt(tr.top, p), p.t1, p.t2);
            Pushed(branch, tr, p) == Track(tr.adds + [a], None)
  {
  }

  lemma {:induction false} GrownPrefix(branch: string, tr: Track, ps: seq<Pushing>, n: nat, i: nat)
    requires i <= n <= |ps| && AllRead(ps, n)
    ensures var all := Grown(branch, tr, ps, n);
            && |all.adds| == |tr.adds| + n && (n > 0 ==> all.top == None)
            && all.adds[..|tr.adds| + i] == Grown(branch, tr, ps, i).adds
            && (i < n ==>
                  all.adds[|tr.adds| + i] == Added(ps[i].delay, ps[i].files.value,
                                                   RequestedAt(if i == 0 then tr.top else None, ps[i]),
                                                   ps[i].t1, ps[i].t2))
  {
    if n > 0 {
      PushAdds(branch, Grown(branch, tr, ps, n - 1), ps[n - 1]);
      GrownPrefix(branch, tr, ps, n - 1, if i < n then i else n - 1);
    }
  }

  /** One push adds the timeline's next commit and looks at the timeline's visible one. */
  lemma PushOnTimeline(o: Origin, tr: Track, v: RepoView, p: Pushing)
    requires CollisionFree(o.hash) && Reachable(o, tr, v)
    ensures v.defaultBranch in v.branches && Reachable(o, Pushed(o.branch, tr, p), AfterPush(o.hash, v, o.branch, p))
    ensures p.files.Some? ==> PushedSha(o.hash, v, o.branch, p) == ShaOf(o, Pushed(o.branch, tr, p).adds)
    ensures Seen(v, o.branch, p) == VisibleAt(o, tr.adds, Latest(tr.top, p.tv))
  {
    hide Reachable, Flush;
    HasMain(o, tr, v);
    var u, tr' := Flush(v, o.branch, p.tv), Follow(o.branch, tr, Look(o.branch, p.tv));
    var e := Add(o.branch, p.delay, p.files, p.t0, p.t1, p.t2);
    FlushKeepsReachable(o, tr, v, p.tv);
    StepKeepsReachable(o, tr', u, e);
    if p.files.Some? { NewShaOnTimeline(o, tr', u, e); }
  }

  /** Pushes made one after another keep the repository on its timeline. */
  lemma {:induction false} PushesReach(o: Origin, tr: Track, v: RepoView, ps: seq<Pushing>, n: nat)
    requires CollisionFree(o.hash) && Reachable(o, tr, v) && n <= |ps|
    ensures v.defaultBranch in v.branches
    ensures Reachable(o, Grown(o.branch, tr, ps, n), AfterPushes(o.hash, v, o.branch, ps, n))
  {
    hide Reachable, AfterPush, Pushed;
    HasMain(o, tr, v);
    if n > 0 {
      PushesReach(o, tr, v, ps, n - 1);
      PushOnTimeline(o, Grown(o.branch, tr, ps, n - 1), AfterPushes(o.hash, v, o.branch, ps, n - 1), ps[n - 1]);
    }
  }

  /** Their SHAs are those of the timeline's next commits, in order. */
  lemma {:induction false} PushedOnTimeline(o: Origin, tr: Track, v: RepoView, ps: seq<Pushing>, n: nat, i: nat)
    requires CollisionFree(o.hash) && Reachable(o, tr, v) && i < n <= |ps| && ps[i].files.Some?
    ensures v.defaultBranch in v.branches
    ensures PushedShas(o.hash, v, o.branch, ps, n)[i] == ShaOf(o, Grown(o.branch, tr, ps, i + 1).adds)
  {
    hide Reachable, AfterPush, PushedSha, ShaOf, Pushed;
    HasMain(o, tr, v);
    if i < n - 1 {
      PushedOnTimeline(o, tr, v, ps, n - 1, i);
    } else {
      PushesReach(o, tr, v, ps, i);
      PushOnTimeline(o, Grown(o.branch, tr, ps, i), AfterPushes(o.hash, v, o.branch, ps, i), ps[i]);
    }
  }

  /** Commits pushed without a delay all join the visible history, in order, on top of what was visible. */
  lemma {:induction false} ImmediateChain(o: Origin, tr: Track, ps: seq<Pushing>, shas: seq<Sha>, n: nat, t: Time)
    requires 0 < n <= |ps| && n <= |shas| && AllRead(ps, n) && forall i :: 0 <= i < n ==> ps[i].delay == 0
    requires forall i :: 0 <= i < n ==> shas[i] == ShaOf(o, Grown(o.branch, tr, ps, i + 1).adds)
    ensures Chain(o, Grown(o.branch, tr, ps, n).adds, t)
         == Chain(o, tr.adds, RequestedAt(tr.top, ps[0])) + shas[..n]
  {
    hide ShaOf, Pushed;
    var front := Grown(o.branch, tr, ps, n - 1);
    var all := Grown(o.branch, tr, ps, n).adds;
    PushAdds(o.branch, front, ps[n - 1]);
    NewestShows(o, front.adds, all, t);
    if n == 1 {
      assert shas[..1] == [shas[0]];
    } else {
      ImmediateChain(o, tr, ps, shas, n - 1, Last(all).t0);
      assert shas[..n] == shas[..n - 1] + [shas[n - 1]];
    }
  }

  lemma NewestShows(o: Origin, front: seq<Added>, all: seq<Added>, t: Time)
    requires all != [] && all == front + [Last(all)] && Last(all).delay == 0
    ensures Chain(o, all, t) == Chain(o, front, Last(all).t0) + [ShaOf(o, all)]
  {
    assert Front(all) == front;
  }

  /**
   * RunPushN's pushes, from any reachable state and at any readings: its commits form a parent chain in the store
   * on top of the commit visible when the first was made, and the last of them is what the branch shows whenever
   * it is asked.
   */
  lemma {:induction false} PushNExtendsHistory(o: Origin, tr: Track, v: RepoView, ps: seq<Pushing>, t: Time)
    requires CollisionFree(o.hash) && Reachable(o, tr, v) && ps != []
    requires AllRead(ps, |ps|) && forall i :: 0 <= i < |ps| ==> ps[i].delay == 0
    ensures v.defaultBranch in v.branches
    ensures var v' := AfterPushes(o.hash, v, o.branch, ps, |ps|);
            var shas := PushedShas(o.hash, v, o.branch, ps, |ps|);
            var base := Chain(o, tr.adds, RequestedAt(tr.top, ps[0]));
            && Shown(o, tr.adds, Main(v)) <= base && IsHistory(v'.objects, base + shas)
            && Resolve(Main(v'), t).visible == Last(shas) && Resolve(Main(v'), t).pending.None?
  {
    hide Reachable, AfterPush, PushedSha, Pushed;
    HasMain(o, tr, v);
    var n, all := |ps|, Grown(o.branch, tr, ps, |ps|);
    var v', shas := AfterPushes(o.hash, v, o.branch, ps, n), PushedShas(o.hash, v, o.branch, ps, n);
    PushesReach(o, tr, v, ps, n);
    forall i | 0 <= i < n
      ensures Grown(o.branch, tr, ps, i + 1).adds != []
      ensures shas[i] == ShaOf(o, Grown(o.branch, tr, ps, i + 1).adds)
    {
      PushAdds(o.branch, Grown(o.branch, tr, ps, i), ps[i]);
      PushedOnTimeline(o, tr, v, ps, n, i);
    }
    ImmediateChain(o, tr, ps, shas, n, Latest(all.top, t));
    assert shas[..n] == shas;
    GrownPrefix(o.branch, tr, ps, n, n - 1);
    HistoryOf(o, all, v', t);
    ShownBefore(o, tr, v, ps[0]);
  }

  lemma ShownBefore(o: Origin, tr: Track, v: RepoView, p: Pushing)
    requires Reachable(o, tr, v)
    ensures v.defaultBranch in v.branches
    ensures Shown(o, tr.adds, Main(v)) <= Chain(o, tr.adds, RequestedAt(tr.top, p))
  {
    ShownResolved(o, tr, Main(v), Latest(Some(p.tv), p.t0));
  }

  /** The visible history of a reachable state. */
  lemma HistoryOf(o: Origin, tr: Track, v: RepoView, t: Time)
    requires Reachable(o, tr, v)
    ensures v.defaultBranch in v.branches && IsHistory(v.objects, Chain(o, tr.adds, Latest(tr.top, t)))
    ensures Resolve(Main(v), t).visible == Last(Chain(o, tr.adds, Latest(tr.top, t)))
    ensures Resolve(Main(v), t).pending.Some? <==> StillPending(tr.adds, Latest(tr.top, t))
  {
    ChainIsHistory(o, tr.adds, v.objects, Latest(tr.top, t));
    ResolveTracks(o, tr, Main(v), t);
  }
}
