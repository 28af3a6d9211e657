// Concurrent Push calls: three critical sections each, interleaved with anything else.
module PushSteps {
  import opened Objects
  import opened RepoSpec
  import opened RepoInvariant
  import opened Timeline
  import opened RepoHistory
  import opened Pushes

  /** A Push between its sections: after reading the visible commit, or after adding its own. */
  datatype Phase = Looked(branch: string, prev: Sha) | Wrote(branch: string, prev: Sha, sha: Sha)

  /** SimRepo's two tables, the pushes under way, and the (SHA, branch) pairs of the finished ones. */
  datatype Book = Book(
    shaBranch: map<Sha, string>,
    prevSHA: map<string, Sha>,
    pushers: map<nat, Phase>,
    finished: seq<(Sha, string)>)

  datatype System = System(repo: RepoView, book: Book)

  datatype Action =
    | Begin(id: nat, branch: string, t: Time)
    | Write(id: nat, delay: int, files: Option<Files>, t0: Time, t1: Time, t2: Time)
    | Record(id: nat)
    | Other(e: Event)

  const EMPTY_BOOK := Book(map[], map[], map[], [])

  // ----- the three sections -----

  /** VisibleCommit under the repository lock; an unknown branch reads as the empty string. */
  ghost function DoBegin(hash: Object -> Sha, s: System, id: nat, branch: string, t: Time): System
    requires CollisionFree(hash) && s.repo.defaultBranch in s.repo.branches && id !in s.book.pushers
  {
    var prev := if branch in s.repo.branches then Resolve(s.repo.branches[branch], t).visible else "";
    System(Step(hash, s.repo, Look(branch, t)),
           s.book.(pushers := s.book.pushers[id := Looked(branch, prev)]))
  }

  /** AddCommit under the repository lock; on an error the push returns and records nothing. */
  ghost function DoWrite(hash: Object -> Sha, s: System, id: nat, delay: int, files: Option<Files>,
                          t0: Time, t1: Time, t2: Time): System
    requires CollisionFree(hash) && s.repo.defaultBranch in s.repo.branches
    requires id in s.book.pushers && s.book.pushers[id].Looked?
  {
    var p := s.book.pushers[id];
    System(Step(hash, s.repo, Add(p.branch, delay, files, t0, t1, t2)),
           if p.branch in s.repo.branches && files.Some? then
             var sha := NewSha(hash, s.repo, p.branch, files.value, t0, t1);
             s.book.(pushers := s.book.pushers[id := Wrote(p.branch, p.prev, sha)])
           else
             s.book.(pushers := s.book.pushers - {id}))
  }

  /** The two table writes under SimRepo's own lock. */
  ghost function DoRecord(s: System, id: nat): System
    requires id in s.book.pushers && s.book.pushers[id].Wrote?
  {
    var p := s.book.pushers[id];
    s.(book := Book(s.book.shaBranch[p.sha := p.branch], s.book.prevSHA[p.branch := p.prev],
                    s.book.pushers - {id}, s.book.finished + [(p.sha, p.branch)]))
  }

  ghost predicate Enabled(s: System, a: Action) {
    match a
    case Begin(id, _, _) => id !in s.book.pushers
    case Write(id, _, _, _, _, _) => id in s.book.pushers && s.book.pushers[id].Looked?
    case Record(id) => id in s.book.pushers && s.book.pushers[id].Wrote?
    case Other(_) => true
  }

  ghost function Act(hash: Object -> Sha, s: System, a: Action): (r: System)
    requires CollisionFree(hash) && s.repo.defaultBranch in s.repo.branches && Enabled(s, a)
    ensures r.repo.defaultBranch in r.repo.branches
  {
    match a
    case Begin(id, branch, t) => DoBegin(hash, s, id, branch, t)
    case Write(id, delay, files, t0, t1, t2) => DoWrite(hash, s, id, delay, files, t0, t1, t2)
    case Record(id) => DoRecord(s, id)
    case Other(e) => s.(repo := Step(hash, s.repo, e))
  }

  /** An interleaving: enabled actions one after the other, at any clock readings. */
  ghost predicate Interleaving(hash: Object -> Sha, states: seq<System>, acts: seq<Action>)
    requires CollisionFree(hash)
  {
    && |states| == |acts| + 1
    && (forall k :: 0 <= k < |states| ==> states[k].repo.defaultBranch in states[k].repo.branches)
    && forall k :: 0 <= k < |acts| ==>
         Enabled(states[k], acts[k]) && states[k + 1] == Act(hash, states[k], acts[k])
  }

  /** The call on the repository that an action makes, if it makes one. */
  ghost function CallOf(s: System, a: Action): (es: seq<Event>)
    requires Enabled(s, a)
    ensures |es| <= 1
  {
    match a
    case Begin(_, branch, t) => [Look(branch, t)]
    case Write(id, delay, files, t0, t1, t2) => [Add(s.book.pushers[id].branch, delay, files, t0, t1, t2)]
    case Record(_) => []
    case Other(e) => [e]
  }

  /** The calls that the first `k` actions make, in order. */
  ghost function CallsOf(hash: Object -> Sha, states: seq<System>, acts: seq<Action>, k: nat): seq<Event>
    requires CollisionFree(hash) && Interleaving(hash, states, acts) && k < |states|
  {
    if k == 0 then [] else CallsOf(hash, states, acts, k - 1) + CallOf(states[k - 1], acts[k - 1])
  }

  /** A push whose three sections nothing comes between is the push of a caller who is alone. */
  lemma PushInOneGo(hash: Object -> Sha, s: System, id: nat, branch: string, p: Pushing)
    requires CollisionFree(hash) && s.repo.defaultBranch in s.repo.branches && id !in s.book.pushers
    ensures var s1 := Act(hash, s, Begin(id, branch, p.tv));
            && Enabled(s1, Write(id, p.delay, p.files, p.t0, p.t1, p.t2))
            && var s2 := Act(hash, s1, Write(id, p.delay, p.files, p.t0, p.t1, p.t2));
               && s2.repo == AfterPush(hash, s.repo, branch, p)
               && if !Goes(s.repo, branch, p) then s2.book == s.book
                  else
                    && Enabled(s2, Record(id))
                    && var s3, sha := Act(hash, s2, Record(id)), PushedSha(hash, s.repo, branch, p);
                       && s3.repo == s2.repo && s3.book.pushers == s.book.pushers
                       && s3.book.finished == s.book.finished + [(sha, branch)]
                       && Tables(s3.book.shaBranch, s3.book.prevSHA)
                          == Recorded(Tables(s.book.shaBranch, s.book.prevSHA), branch, sha, Seen(s.repo, branch, p))
  {
    hide WithCommit, NextCommit;
    var s1 := DoBegin(hash, s, id, branch, p.tv);
    assert s1.book.pushers - {id} == s.book.pushers;
    assert branch in s.repo.branches ==> Step(hash, s.repo, Look(branch, p.tv)) == Flush(s.repo, branch, p.tv);
    if Goes(s.repo, branch, p) {
      var s2 := DoWrite(hash, s1, id, p.delay, p.files, p.t0, p.t1, p.t2);
      assert s2.book.pushers - {id} == s.book.pushers;
    }
  }

  // ----- the invariant -----

  /** `sha` is one of the commits added so far. */
  ghost predicate IsAdded(o: Origin, adds: seq<Added>, sha: Sha) {
    exists i :: 0 < i <= |adds| && AddedAs(o, adds, i, sha)
  }

  ghost predicate AddedAs(o: Origin, adds: seq<Added>, i: nat, sha: Sha)
    requires 0 < i <= |adds|
  {
    ShaOf(o, adds[..i]) == sha
  }

  /** What a push has read is on the history `c` shown by the branch. */
  ghost predicate PhaseOk(o: Origin, adds: seq<Added>, p: Phase, c: seq<Sha>) {
    match p
    case Looked(branch, prev) => branch == o.branch ==> prev in c
    case Wrote(branch, prev, sha) => branch == o.branch && prev in c && IsAdded(o, adds, sha)
  }

  ghost predicate IsFinished(b: Book, sha: Sha) {
    exists i :: 0 <= i < |b.finished| && b.finished[i].0 == sha
  }

  ghost predicate BookOk(o: Origin, adds: seq<Added>, b: Book, c: seq<Sha>) {
    && (forall id :: id in b.pushers ==> PhaseOk(o, adds, b.pushers[id], c))
    && (forall x :: x in b.prevSHA ==> x == o.branch && b.prevSHA[x] in c)
    && (forall i :: 0 <= i < |b.finished| ==>
          var (sha, branch) := b.finished[i];
          branch == o.branch && sha in b.shaBranch && b.shaBranch[sha] == branch && IsAdded(o, adds, sha))
  }

  /** No two pushes, finished or under way, ever hold the same SHA. */
  ghost predicate ShasApart(b: Book) {
    && (forall i, j :: i in b.pushers && j in b.pushers && i != j && b.pushers[i].Wrote? && b.pushers[j].Wrote? ==>
          b.pushers[i].sha != b.pushers[j].sha)
    && (forall i :: i in b.pushers && b.pushers[i].Wrote? ==> !IsFinished(b, b.pushers[i].sha))
    && (forall i, j :: 0 <= i < j < |b.finished| ==> b.finished[i].0 != b.finished[j].0)
  }

  ghost predicate SystemOk(o: Origin, tr: Track, s: System) {
    && Reachable(o, tr, s.repo) && BookOk(o, tr.adds, s.book, Shown(o, tr.adds, Main(s.repo))) && ShasApart(s.book)
  }

  // ----- every action keeps it -----

  lemma AddedStays(o: Origin, adds: seq<Added>, more: seq<Added>, sha: Sha)
    requires IsAdded(o, adds, sha)
    ensures IsAdded(o, adds + more, sha)
  {
    var i :| 0 < i <= |adds| && AddedAs(o, adds, i, sha);
    assert (adds + more)[..i] == adds[..i];
    assert AddedAs(o, adds + more, i, sha);
  }

  lemma NewShaIsNew(o: Origin, adds: seq<Added>, a: Added)
    requires CollisionFree(o.hash)
    ensures !IsAdded(o, adds, ShaOf(o, adds + [a])) && IsAdded(o, adds + [a], ShaOf(o, adds + [a]))
  {
    var adds' := adds + [a];
    assert adds'[..|adds'|] == adds';
    assert AddedAs(o, adds', |adds'|, ShaOf(o, adds'));
    forall i | 0 < i <= |adds|
      ensures !AddedAs(o, adds, i, ShaOf(o, adds'))
    {
      assert adds'[..i] == adds[..i];
      ShasDistinct(o, adds', i, |adds'|);
    }
  }

  lemma BookStays(o: Origin, adds: seq<Added>, b: Book, c: seq<Sha>, adds': seq<Added>, c': seq<Sha>)
    requires BookOk(o, adds, b, c) && adds <= adds' && c <= c'
    ensures BookOk(o, adds', b, c')
  {
    var more := adds'[|adds|..];
    assert adds' == adds + more;
    forall id | id in b.pushers
      ensures PhaseOk(o, adds', b.pushers[id], c')
    {
      assert PhaseOk(o, adds, b.pushers[id], c);
      if b.pushers[id].Wrote? { AddedStays(o, adds, more, b.pushers[id].sha); }
    }
    forall i | 0 <= i < |b.finished|
      ensures IsAdded(o, adds', b.finished[i].0)
    {
      AddedStays(o, adds, more, b.finished[i].0);
    }
  }

  lemma EventKeepsOk(o: Origin, tr: Track, s: System, e: Event)
    requires CollisionFree(o.hash) && SystemOk(o, tr, s)
    ensures SystemOk(o, Follow(o.branch, tr, e), s.(repo := Step(o.hash, s.repo, e)))
  {
    hide WellFounded, CommitsStored, TagsOnHistory, RefsMirror, Shown, Step;
    StepKeepsReachable(o, tr, s.repo, e);
    ShownAcross(o, tr, s.repo, e);
    BookStays(o, tr.adds, s.book, Shown(o, tr.adds, Main(s.repo)), Follow(o.branch, tr, e).adds,
              Shown(o, Follow(o.branch, tr, e).adds, Main(Step(o.hash, s.repo, e))));
  }

  /** What a look answers is on the history shown from then on. */
  lemma SeenIsShown(o: Origin, tr: Track, v: RepoView, branch: string, t: Time)
    requires CollisionFree(o.hash) && Reachable(o, tr, v)
    ensures v.branches.Keys == {o.branch} && v.defaultBranch == o.branch
    ensures branch == o.branch ==>
              Resolve(v.branches[branch], t).visible in Shown(o, tr.adds, Main(Step(o.hash, v, Look(branch, t))))
  {
    hide WellFounded, CommitsStored, TagsOnHistory, RefsMirror;
    ResolveTracks(o, tr, Main(v), t);
    ShownResolved(o, tr, Main(v), t);
  }

  lemma BeginKeepsOk(o: Origin, tr: Track, s: System, id: nat, branch: string, t: Time)
    requires CollisionFree(o.hash) && SystemOk(o, tr, s) && id !in s.book.pushers
    ensures SystemOk(o, Follow(o.branch, tr, Look(branch, t)), DoBegin(o.hash, s, id, branch, t))
  {
    hide Reachable, Shown, Step, Resolve;
    SeenIsShown(o, tr, s.repo, branch, t);
    EventKeepsOk(o, tr, s, Look(branch, t));
    ShasApartBegin(s.book, id, DoBegin(o.hash, s, id, branch, t).book.pushers[id]);
  }

  lemma ShasApartBegin(b: Book, id: nat, p: Phase)
    requires ShasApart(b) && id !in b.pushers && p.Looked?
    ensures ShasApart(b.(pushers := b.pushers[id := p]))
  {
  }

  lemma WriteKeepsOk(o: Origin, tr: Track, s: System, id: nat, e: Event)
    requires CollisionFree(o.hash) && SystemOk(o, tr, s)
    requires id in s.book.pushers && s.book.pushers[id].Looked? && e.Add? && e.branch == s.book.pushers[id].branch
    ensures SystemOk(o, Follow(o.branch, tr, e), DoWrite(o.hash, s, id, e.delay, e.files, e.t0, e.t1, e.t2))
  {
    hide Reachable, Shown, Step;
    var p, tr' := s.book.pushers[id], Follow(o.branch, tr, e);
    HasMain(o, tr, s.repo);
    EventKeepsOk(o, tr, s, e);
    if Commits(o.branch, e) {
      NewShaIsNew(o, tr.adds, RequestOf(o.branch, tr, e));
      NewShaOnTimeline(o, tr, s.repo, e);
      var p' := Wrote(p.branch, p.prev, ShaOf(o, tr'.adds));
      ShasApartWrite(o, tr.adds, s.book, Shown(o, tr.adds, Main(s.repo)), id, p');
      BookWrite(o, tr'.adds, s.book, Shown(o, tr'.adds, Main(Step(o.hash, s.repo, e))), id, p');
    } else {
      ShasApartDrop(s.book, id);
    }
  }

  lemma BookWrite(o: Origin, adds: seq<Added>, b: Book, c: seq<Sha>, id: nat, p: Phase)
    requires BookOk(o, adds, b, c) && id in b.pushers && b.pushers[id] == Looked(o.branch, p.prev)
    requires p.Wrote? && p.branch == o.branch && IsAdded(o, adds, p.sha)
    ensures BookOk(o, adds, b.(pushers := b.pushers[id := p]), c)
  {
  }

  lemma ShasApartWrite(o: Origin, adds: seq<Added>, b: Book, c: seq<Sha>, id: nat, p: Phase)
    requires BookOk(o, adds, b, c) && ShasApart(b) && p.Wrote? && !IsAdded(o, adds, p.sha)
    ensures ShasApart(b.(pushers := b.pushers[id := p]))
  {
  }

  lemma ShasApartDrop(b: Book, id: nat)
    requires ShasApart(b)
    ensures ShasApart(b.(pushers := b.pushers - {id}))
  {
  }

  lemma RecordKeepsOk(o: Origin, tr: Track, s: System, id: nat)
    requires SystemOk(o, tr, s)
    requires id in s.book.pushers && s.book.pushers[id].Wrote?
    ensures SystemOk(o, tr, DoRecord(s, id))
  {
    RecordKeepsBook(o, tr.adds, s, Shown(o, tr.adds, Main(s.repo)), id);
    RecordKeepsApart(s, id);
  }

  lemma RecordKeepsBook(o: Origin, adds: seq<Added>, s: System, c: seq<Sha>, id: nat)
    requires BookOk(o, adds, s.book, c) && id in s.book.pushers && s.book.pushers[id].Wrote?
    ensures BookOk(o, adds, DoRecord(s, id).book, c)
  {
    assert PhaseOk(o, adds, s.book.pushers[id], c);
  }

  lemma RecordKeepsApart(s: System, id: nat)
    requires ShasApart(s.book) && id in s.book.pushers && s.book.pushers[id].Wrote?
    ensures ShasApart(DoRecord(s, id).book)
  {
    var b, b', p := s.book, DoRecord(s, id).book, s.book.pushers[id];
    forall sha | IsFinished(b', sha)
      ensures sha == p.sha || IsFinished(b, sha)
    {
      var i :| 0 <= i < |b'.finished| && b'.finished[i].0 == sha;
      assert i < |b.finished| ==> b.finished[i].0 == sha;
    }
    forall i | 0 <= i < |b.finished|
      ensures b.finished[i].0 != p.sha
    {
      assert !IsFinished(b, p.sha);
    }
  }

  /**
   * Every interleaving of any number of pushes and other calls is, to the repository, the run of the calls they
   * make in the order they make them, and the invariant holds throughout.
   */
  lemma {:induction false} EveryInterleavingIsOk(hash: Object -> Sha, branch: string, files: Files, t: Time,
                                                 states: seq<System>, acts: seq<Action>, k: nat)
    requires CollisionFree(hash) && Interleaving(hash, states, acts) && k < |states|
    requires states[0] == System(Created(hash, branch, files, t), EMPTY_BOOK)
    ensures var es := CallsOf(hash, states, acts, k);
            && states[k].repo == After(hash, branch, files, t, es)
            && SystemOk(OriginOf(hash, branch, files, t), TrackOf(branch, es), states[k])
  {
    hide SystemOk, Act, CallOf, Created;
    if k == 0 {
      FirstIsOk(hash, branch, files, t);
    } else {
      var es := CallsOf(hash, states, acts, k - 1);
      EveryInterleavingIsOk(hash, branch, files, t, states, acts, k - 1);
      var o, s, a := OriginOf(hash, branch, files, t), states[k - 1], acts[k - 1];
      ActKeepsOk(o, TrackOf(branch, es), s, a);
      Called(branch, es, CallOf(s, a));
      RunOfCalls(hash, branch, files, t, es, s, a);
    }
  }

  lemma FirstIsOk(hash: Object -> Sha, branch: string, files: Files, t: Time)
    requires CollisionFree(hash)
    ensures SystemOk(OriginOf(hash, branch, files, t), Track([], None),
                     System(Created(hash, branch, files, t), EMPTY_BOOK))
  {
    CreatedIsReachable(hash, branch, files, t);
  }

  function Followed(branch: string, tr: Track, es: seq<Event>): Track
    requires |es| <= 1
  {
    if es == [] then tr else Follow(branch, tr, es[0])
  }

  lemma Called(branch: string, es: seq<Event>, more: seq<Event>)
    requires |more| <= 1
    ensures TrackOf(branch, es + more) == Followed(branch, TrackOf(branch, es), more)
  {
    if more == [] { assert es + more == es; } else { assert (es + more)[..|es|] == es; }
  }

  lemma RunOfCalls(hash: Object -> Sha, branch: string, files: Files, t: Time, es: seq<Event>, s: System, a: Action)
    requires CollisionFree(hash) && s.repo == After(hash, branch, files, t, es) && Enabled(s, a)
    ensures Act(hash, s, a).repo == After(hash, branch, files, t, es + CallOf(s, a))
  {
    if a.Record? { assert es + [] == es; } else { assert (es + CallOf(s, a))[..|es|] == es; }
  }

  lemma ActKeepsOk(o: Origin, tr: Track, s: System, a: Action)
    requires CollisionFree(o.hash) && SystemOk(o, tr, s) && Enabled(s, a)
    ensures s.repo.defaultBranch in s.repo.branches
    ensures SystemOk(o, Followed(o.branch, tr, CallOf(s, a)), Act(o.hash, s, a))
  {
    hide Reachable, BookOk, ShasApart, Follow, DoBegin, DoWrite, DoRecord;
    HasMain(o, tr, s.repo);
    match a
    case Begin(id, branch, t) => BeginKeepsOk(o, tr, s, id, branch, t);
    case Write(id, delay, files, t0, t1, t2) =>
      WriteKeepsOk(o, tr, s, id, Add(s.book.pushers[id].branch, delay, files, t0, t1, t2));
    case Record(id) => RecordKeepsOk(o, tr, s, id);
    case Other(e) => EventKeepsOk(o, tr, s, e);
  }

  /**
   * For any number of concurrent pushes on any clock: the recorded previous commit is an ancestor of what the
   * branch record shows, and so of what a look at any time would answer, and every finished
   * push's SHA maps to its own branch, unshared with any other.
   */
  lemma PushBookkeeping(hash: Object -> Sha, branch: string, files: Files, t: Time,
                        states: seq<System>, acts: seq<Action>, k: nat, now: Time)
    requires CollisionFree(hash) && Interleaving(hash, states, acts) && k < |states|
    requires states[0] == System(Created(hash, branch, files, t), EMPTY_BOOK)
    ensures var s := states[k];
            && branch in s.repo.branches
            && (forall b :: b in s.book.prevSHA ==>
                  && b == branch
                  && AncestorOrSelf(s.repo.objects, s.book.prevSHA[b], s.repo.branches[branch].visible)
                  && AncestorOrSelf(s.repo.objects, s.book.prevSHA[b], Resolve(s.repo.branches[branch], now).visible))
            && (forall i :: 0 <= i < |s.book.finished| ==>
                  s.book.finished[i].0 in s.book.shaBranch
                  && s.book.shaBranch[s.book.finished[i].0] == s.book.finished[i].1 == branch)
            && (forall i, j :: 0 <= i < j < |s.book.finished| ==> s.book.finished[i].0 != s.book.finished[j].0)
  {
    var o := OriginOf(hash, branch, files, t);
    EveryInterleavingIsOk(hash, branch, files, t, states, acts, k);
    OkBookkeeping(o, TrackOf(branch, CallsOf(hash, states, acts, k)), states[k], now);
  }

  lemma OkBookkeeping(o: Origin, tr: Track, s: System, now: Time)
    requires SystemOk(o, tr, s)
    ensures forall b :: b in s.book.prevSHA ==>
              && AncestorOrSelf(s.repo.objects, s.book.prevSHA[b], Main(s.repo).visible)
              && AncestorOrSelf(s.repo.objects, s.book.prevSHA[b], Resolve(Main(s.repo), now).visible)
  {
    ShownIsHistory(o, tr, s.repo);
    ShownResolved(o, tr, Main(s.repo), now);
    ResolveTracks(o, tr, Main(s.repo), now);
    ChainIsHistory(o, tr.adds, s.repo.objects, Latest(tr.top, now));
  }
}
