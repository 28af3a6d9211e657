// Whole runs of one repository, from its creation, whatever its clock does.
module RepoHistory {
  import opened Objects
  import opened TreeSpec
  import opened TreeBuilder
  import opened RepoSpec
  import opened RepoInvariant
  import opened Timeline

  // ----- what the calls amount to -----

  /**
   * The commit requests of a branch that went through, and the latest reading since the last of them. On a clock
   * that goes back a commit counts as requested at the latest reading so far, for a promotion is never undone.
   */
  datatype Track = Track(adds: seq<Added>, top: Option<Time>)

  /** The reading at which a call resolves the branch, if it does. */
  function ResolvedAt(branch: string, e: Event): Option<Time> {
    match e
    case Add(b, _, _, t0, _, _) => if b == branch then Some(t0) else None
    case Look(b, t) => if b == branch then Some(t) else None
    case LookAll(t) => Some(t)
    case PutTag(_, b, _, t, _) => if b == branch then Some(t) else None
  }

  function Touch(tr: Track, t: Time): Track {
    tr.(top := Some(Latest(tr.top, t)))
  }

  /** Whether the call adds a commit. */
  predicate Commits(branch: string, e: Event) {
    e.Add? && e.branch == branch && e.files.Some?
  }

  /** The request of such a call on a branch tracked by `tr`. */
  function RequestOf(branch: string, tr: Track, e: Event): Added
    requires Commits(branch, e)
  {
    Added(e.delay, e.files.value, Latest(tr.top, e.t0), e.t1, e.t2)
  }

  function Follow(branch: string, tr: Track, e: Event): Track {
    if Commits(branch, e) then Track(tr.adds + [RequestOf(branch, tr, e)], None)
    else if ResolvedAt(branch, e).Some? then Touch(tr, ResolvedAt(branch, e).value)
    else tr
  }

  function TrackOf(branch: string, es: seq<Event>): Track {
    if es == [] then Track([], None) else Follow(branch, TrackOf(branch, es[..|es| - 1]), es[|es| - 1])
  }

  function Requests(branch: string, es: seq<Event>): seq<Added> {
    TrackOf(branch, es).adds
  }

  ghost function OriginOf(hash: Object -> Sha, branch: string, files: Files, t: Time): Origin {
    Origin(hash, branch, hash(CommitOf(hash, None, files, INITIAL_MESSAGE, t)))
  }

  // ----- what holds in every reachable state -----

  /** Whether commit `a` was due at the latest reading since it was added. */
  predicate DueBy(a: Added, top: Option<Time>) {
    a.delay == 0 || (top.Some? && Due(a, top.value))
  }

  /** The branch record is the timeline, read at the latest reading so far. */
  ghost predicate Tracks(o: Origin, tr: Track, b: BranchView) {
    && b.index == |tr.adds|
    && if tr.adds == [] then b.pending == None && b.visible == o.root
       else if DueBy(Last(tr.adds), tr.top) then b.pending == None && b.visible == ShaOf(o, tr.adds)
       else
         && b.pending == Some(ShaOf(o, tr.adds)) && b.promoteAt == Last(tr.adds).t2 + Last(tr.adds).delay
         && b.visible == VisibleAt(o, Front(tr.adds), Last(tr.adds).t0)
  }

  /** Every commit ever added is stored with its whole tree. */
  ghost predicate CommitsStored(o: Origin, adds: seq<Added>, objects: map<Sha, Object>) {
    && o.root in objects && objects[o.root].Commit? && objects[o.root].parents == []
    && forall i :: 0 < i <= |adds| ==>
         Holds(o.hash, objects, CommitFor(o, adds[..i])) && Stored(o.hash, objects, adds[i - 1].files)
  }

  /** The visible history up to the commit the record shows, which may lag behind what is due. */
  ghost function Shown(o: Origin, adds: seq<Added>, b: BranchView): (c: seq<Sha>)
    ensures c != []
  {
    if adds == [] then [o.root]
    else Chain(o, Front(adds), Last(adds).t0) + if b.pending.None? then [ShaOf(o, adds)] else []
  }

  /** Every tag names a commit of the history shown; an annotated one through a stored tag object. */
  ghost predicate TagsOnHistory(c: seq<Sha>, tags: map<string, TagView>, objects: map<Sha, Object>) {
    forall n :: n in tags ==> TagOnHistory(c, n, tags[n], objects)
  }

  ghost predicate TagOnHistory(c: seq<Sha>, n: string, t: TagView, objects: map<Sha, Object>) {
    && t.commit in c
    && (t.tagObject.Some? ==>
          && t.tagObject.value in objects && objects[t.tagObject.value].Tag?
          && objects[t.tagObject.value].name == n && objects[t.tagObject.value].target == t.commit)
  }

  ghost predicate Reachable(o: Origin, tr: Track, v: RepoView) {
    && v.defaultBranch == o.branch && RefsAgree(v)
    && Tracks(o, tr, Main(v))
    && WellFounded(o.hash, v.objects) && CommitsStored(o, tr.adds, v.objects)
    && TagsOnHistory(Shown(o, tr.adds, Main(v)), v.tags, v.objects)
  }

  // ----- one resolve -----

  /** A look shows what the timeline says at the latest reading, and the record still tracks it. */
  lemma ResolveTracks(o: Origin, tr: Track, b: BranchView, t: Time)
    requires Tracks(o, tr, b)
    ensures Tracks(o, Touch(tr, t), Resolve(b, t))
    ensures Resolve(b, t).visible == VisibleAt(o, tr.adds, Latest(tr.top, t))
    ensures Resolve(b, t).pending.Some? <==> StillPending(tr.adds, Latest(tr.top, t))
  {
  }

  /** A resolved record shows all that is due, and at least what it showed before. */
  lemma ShownResolved(o: Origin, tr: Track, b: BranchView, t: Time)
    requires Tracks(o, tr, b)
    ensures Shown(o, tr.adds, Resolve(b, t)) == Chain(o, tr.adds, Latest(tr.top, t))
    ensures Shown(o, tr.adds, b) <= Chain(o, tr.adds, Latest(tr.top, t))
    ensures Last(Shown(o, tr.adds, b)) == b.visible
  {
  }

  /** A record resolved at the latest reading is what the timeline says then. */
  lemma AlreadyResolved(o: Origin, tr: Track, b: BranchView)
    requires Tracks(o, tr, b) && tr.top.Some?
    ensures b.visible == VisibleAt(o, tr.adds, tr.top.value)
    ensures Shown(o, tr.adds, b) == Chain(o, tr.adds, tr.top.value)
  {
  }

  lemma ChainStored(o: Origin, adds: seq<Added>, objects: map<Sha, Object>, t: Time)
    requires CommitsStored(o, adds, objects)
    ensures forall x :: x in Chain(o, adds, t) ==> x in objects
  {
    var c := Chain(o, adds, t);
    forall x | x in c
      ensures x in objects
    {
      var k :| 0 <= k < |c| && c[k] == x;
      if k > 0 {
        var i := ChainEdges(o, adds, t, k);
        assert Holds(o.hash, objects, CommitFor(o, adds[..i]));
      }
    }
  }

  lemma {:induction false} FlushKeepsReachable(o: Origin, tr: Track, v: RepoView, t: Time)
    requires Reachable(o, tr, v)
    ensures Reachable(o, Touch(tr, t), Flush(v, o.branch, t))
    ensures Main(Flush(v, o.branch, t)) == Resolve(Main(v), t)
    ensures Main(Flush(v, o.branch, t)).visible == VisibleAt(o, tr.adds, Latest(tr.top, t))
  {
    ResolveTracks(o, tr, Main(v), t);
    FlushKeepsRefs(v, t);
    ShownResolved(o, tr, Main(v), t);
    TagsStay(Shown(o, tr.adds, Main(v)), v.tags, v.objects, Chain(o, tr.adds, Latest(tr.top, t)), v.objects);
  }

  // ----- one commit -----

  /** The SHA AddCommit returns is that of the timeline's next commit. */
  lemma NewShaOnTimeline(o: Origin, tr: Track, v: RepoView, e: Event)
    requires Reachable(o, tr, v) && Commits(o.branch, e)
    ensures NewSha(o.hash, v, o.branch, e.files.value, e.t0, e.t1) == ShaOf(o, Follow(o.branch, tr, e).adds)
  {
    hide WellFounded, CommitsStored, TagsOnHistory, RefsMirror;
    FlushKeepsReachable(o, tr, v, e.t0);
    var a := RequestOf(o.branch, tr, e);
    assert Front(tr.adds + [a]) == tr.adds && Last(tr.adds + [a]) == a;
  }

  lemma {:induction false} AddTracks(o: Origin, tr: Track, v: RepoView, a: Added)
    requires CollisionFree(o.hash) && v.defaultBranch == o.branch && RefsAgree(v)
    requires Tracks(o, tr, Main(v)) && tr.top == Some(a.t0)
    ensures var v' := WithCommit(o.hash, v, o.branch, a.delay, a.files, a.t1, a.t2);
            Tracks(o, Track(tr.adds + [a], None), Main(v')) && RefsAgree(v')
  {
    var v' := WithCommit(o.hash, v, o.branch, a.delay, a.files, a.t1, a.t2);
    AlreadyResolved(o, tr, Main(v));
    assert Front(tr.adds + [a]) == tr.adds && Last(tr.adds + [a]) == a;
    assert CommitFor(o, tr.adds + [a]) == NextCommit(o.hash, Main(v), o.branch, a.files, a.t1);
    CommitKeepsRefs(o.hash, v, a.delay, a.files, a.t1, a.t2);
  }

  lemma CommitsStayStored(o: Origin, adds: seq<Added>, objects: map<Sha, Object>, objects': map<Sha, Object>, a: Added)
    requires CommitsStored(o, adds, objects)
    requires Extends(objects, objects')
    requires Holds(o.hash, objects', CommitFor(o, adds + [a])) && Stored(o.hash, objects', a.files)
    ensures CommitsStored(o, adds + [a], objects')
  {
    var adds' := adds + [a];
    forall i | 0 < i <= |adds'|
      ensures Holds(o.hash, objects', CommitFor(o, adds'[..i])) && Stored(o.hash, objects', adds'[i - 1].files)
    {
      if i <= |adds| {
        assert adds'[..i] == adds[..i];
        assert Holds(o.hash, objects, CommitFor(o, adds[..i]));
        StoredMonotone(o.hash, objects, objects', adds[i - 1].files);
      } else {
        assert adds'[..i] == adds';
      }
    }
  }

  lemma TagsStay(c: seq<Sha>, tags: map<string, TagView>, objects: map<Sha, Object>,
                 c': seq<Sha>, objects': map<Sha, Object>)
    requires TagsOnHistory(c, tags, objects) && c <= c' && Extends(objects, objects')
    ensures TagsOnHistory(c', tags, objects')
  {
  }

  /** What writing one more commit does to the store. */
  lemma {:induction false} AddStores(o: Origin, adds: seq<Added>, v: RepoView, a: Added)
    requires CollisionFree(o.hash) && o.branch in v.branches && o.branch == v.defaultBranch
    requires WellFounded(o.hash, v.objects) && CommitsStored(o, adds, v.objects)
    requires Main(v).index == |adds| && Main(v).visible == VisibleAt(o, adds, a.t0)
    ensures var objects' := WithCommit(o.hash, v, o.branch, a.delay, a.files, a.t1, a.t2).objects;
            WellFounded(o.hash, objects') && CommitsStored(o, adds + [a], objects') && Extends(v.objects, objects')
  {
    var b := Main(v);
    var message := CommitMessage(b.index + 1, o.branch);
    var os := CommitObjects(o.hash, Some(b.visible), a.files, message, a.t1);
    ChainStored(o, adds, v.objects, a.t0);
    CommitKeepsObjects(o.hash, v, a.delay, a.files, a.t1, a.t2);
    PutCommitStores(o.hash, v.objects, Some(b.visible), a.files, message, a.t1);
    assert Front(adds + [a]) == adds;
    assert CommitFor(o, adds + [a]) == CommitOf(o.hash, Some(b.visible), a.files, message, a.t1);
    CommitsStayStored(o, adds, v.objects, PutAll(o.hash, v.objects, os), a);
  }

  lemma {:induction false} CommitKeepsReachable(o: Origin, tr: Track, v: RepoView, a: Added)
    requires CollisionFree(o.hash) && Reachable(o, tr, v) && tr.top == Some(a.t0)
    ensures Reachable(o, Track(tr.adds + [a], None), WithCommit(o.hash, v, o.branch, a.delay, a.files, a.t1, a.t2))
  {
    var v' := WithCommit(o.hash, v, o.branch, a.delay, a.files, a.t1, a.t2);
    AlreadyResolved(o, tr, Main(v));
    AddTracks(o, tr, v, a);
    AddStores(o, tr.adds, v, a);
    ShownExtends(o, tr, v, a);
    TagsStay(Shown(o, tr.adds, Main(v)), v.tags, v.objects, Shown(o, tr.adds + [a], Main(v')), v'.objects);
  }

  /** A new commit extends what a resolved record shows, or leaves it. */
  lemma ShownExtends(o: Origin, tr: Track, v: RepoView, a: Added)
    requires CollisionFree(o.hash) && o.branch == v.defaultBranch && o.branch in v.branches
    requires Tracks(o, tr, Main(v)) && tr.top == Some(a.t0)
    ensures Shown(o, tr.adds, Main(v))
         <= Shown(o, tr.adds + [a], Main(WithCommit(o.hash, v, o.branch, a.delay, a.files, a.t1, a.t2)))
  {
    AlreadyResolved(o, tr, Main(v));
    assert Front(tr.adds + [a]) == tr.adds && Last(tr.adds + [a]) == a;
  }

  lemma {:induction false} AddKeepsReachable(o: Origin, tr: Track, v: RepoView, e: Event)
    requires CollisionFree(o.hash) && Reachable(o, tr, v) && Commits(o.branch, e)
    ensures Reachable(o, Follow(o.branch, tr, e), Step(o.hash, v, e))
  {
    hide Reachable, WithCommit, Flush;
    FlushKeepsReachable(o, tr, v, e.t0);
    HasMain(o, tr, v);
    CommitKeepsReachable(o, Touch(tr, e.t0), Flush(v, o.branch, e.t0), RequestOf(o.branch, tr, e));
  }

  lemma HasMain(o: Origin, tr: Track, v: RepoView)
    requires Reachable(o, tr, v)
    ensures v.defaultBranch == o.branch && v.branches.Keys == {o.branch}
  {
  }

  // ----- one tag -----

  lemma {:induction false} TagKeepsReachable(o: Origin, tr: Track, v: RepoView, name: string, annotated: bool, t1: Time)
    requires CollisionFree(o.hash) && Reachable(o, tr, v)
    ensures Reachable(o, tr, WithTag(o.hash, v, name, o.branch, annotated, t1))
  {
    var v' := WithTag(o.hash, v, name, o.branch, annotated, t1);
    ShownIsHistory(o, tr, v);
    TagStores(o, tr.adds, v, name, annotated, t1);
    TaggedOnHistory(Shown(o, tr.adds, Main(v)), o, v, name, annotated, t1);
    MirrorTag(v.refs, o.branch, Main(v).visible, v.tags, name, v'.tags[name]);
  }

  lemma TagStores(o: Origin, adds: seq<Added>, v: RepoView, name: string, annotated: bool, t1: Time)
    requires CollisionFree(o.hash) && o.branch in v.branches && o.branch == v.defaultBranch
    requires WellFounded(o.hash, v.objects) && CommitsStored(o, adds, v.objects) && Main(v).visible in v.objects
    ensures var v' := WithTag(o.hash, v, name, o.branch, annotated, t1);
            && WellFounded(o.hash, v'.objects) && CommitsStored(o, adds, v'.objects) && Extends(v.objects, v'.objects)
            && (annotated ==> Holds(o.hash, v'.objects, TagObject(name, Main(v).visible, t1)))
  {
    if annotated {
      var obj := TagObject(name, Main(v).visible, t1);
      PutKeepsWellFounded(o.hash, v.objects, obj);
      var objects' := v.objects[o.hash(obj) := obj];
      forall i | 0 < i <= |adds|
        ensures Holds(o.hash, objects', CommitFor(o, adds[..i])) && Stored(o.hash, objects', adds[i - 1].files)
      {
        assert Holds(o.hash, v.objects, CommitFor(o, adds[..i]));
        StoredMonotone(o.hash, v.objects, objects', adds[i - 1].files);
      }
    }
  }

  lemma TaggedOnHistory(c: seq<Sha>, o: Origin, v: RepoView, name: string, annotated: bool, t1: Time)
    requires CollisionFree(o.hash) && o.branch in v.branches && o.branch == v.defaultBranch
    requires TagsOnHistory(c, v.tags, v.objects) && Main(v).visible in c
    requires var v' := WithTag(o.hash, v, name, o.branch, annotated, t1);
             && Extends(v.objects, v'.objects)
             && (annotated ==> Holds(o.hash, v'.objects, TagObject(name, Main(v).visible, t1)))
    ensures var v' := WithTag(o.hash, v, name, o.branch, annotated, t1);
            TagsOnHistory(c, v'.tags, v'.objects)
  {
  }

  // ----- whole runs -----

  lemma CreatedIsReachable(hash: Object -> Sha, branch: string, files: Files, t: Time)
    requires CollisionFree(hash)
    ensures Reachable(OriginOf(hash, branch, files, t), TrackOf(branch, []), Created(hash, branch, files, t))
  {
    EmptyIsWellFounded(hash);
    PutCommitKeepsWellFounded(hash, map[], None, files, INITIAL_MESSAGE, t);
    CreatedMirrors(hash, branch, files, t);
    RootStored(hash, branch, files, t);
  }

  lemma RootStored(hash: Object -> Sha, branch: string, files: Files, t: Time)
    requires CollisionFree(hash)
    ensures CommitsStored(OriginOf(hash, branch, files, t), [], Created(hash, branch, files, t).objects)
  {
  }

  /** Every call, at any reading, keeps the repository on its timeline. */
  lemma {:induction false} StepKeepsReachable(o: Origin, tr: Track, v: RepoView, e: Event)
    requires CollisionFree(o.hash) && Reachable(o, tr, v)
    ensures Reachable(o, Follow(o.branch, tr, e), Step(o.hash, v, e))
  {
    hide Reachable, WithCommit, WithTag, Flush;
    HasMain(o, tr, v);
    var at := ResolvedAt(o.branch, e);
    if Commits(o.branch, e) {
      AddKeepsReachable(o, tr, v, e);
    } else if at.Some? {
      FlushKeepsReachable(o, tr, v, at.value);
      if e.PutTag? {
        TagKeepsReachable(o, Touch(tr, e.t), Flush(v, o.branch, e.t), e.name, e.annotated, e.t1);
      }
    }
  }

  lemma {:induction false} RunIsReachable(hash: Object -> Sha, branch: string, files: Files, t: Time, es: seq<Event>)
    requires CollisionFree(hash)
    ensures Reachable(OriginOf(hash, branch, files, t), TrackOf(branch, es), After(hash, branch, files, t, es))
  {
    if es == [] {
      CreatedIsReachable(hash, branch, files, t);
    } else {
      var front, last := es[..|es| - 1], es[|es| - 1];
      RunIsReachable(hash, branch, files, t, front);
      StepKeepsReachable(OriginOf(hash, branch, files, t), TrackOf(branch, front), After(hash, branch, files, t, front),
                         last);
    }
  }

  lemma RunOpens(hash: Object -> Sha, branch: string, files: Files, t: Time, es: seq<Event>)
    requires CollisionFree(hash) && es != []
    ensures After(hash, branch, files, t, es) == Step(hash, After(hash, branch, files, t, es[..|es| - 1]), es[|es| - 1])
  {
  }

  /** The invariant holds throughout, and nothing stored is ever lost. */
  lemma {:induction false} RunIsSound(hash: Object -> Sha, branch: string, files: Files, t: Time, es: seq<Event>)
    requires CollisionFree(hash)
    ensures Sound(hash, After(hash, branch, files, t, es))
    ensures Extends(Created(hash, branch, files, t).objects, After(hash, branch, files, t, es).objects)
  {
    hide Sound, Created, Step;
    if es == [] {
      CreatedIsSound(hash, branch, files, t);
    } else {
      RunIsSound(hash, branch, files, t, es[..|es| - 1]);
      RunOpens(hash, branch, files, t, es);
      StepKeepsSound(hash, After(hash, branch, files, t, es[..|es| - 1]), es[|es| - 1]);
    }
  }

  // ----- main results -----

  /** The state of a run of calls on a freshly created repository. */
  ghost function After(hash: Object -> Sha, branch: string, files: Files, t: Time, es: seq<Event>): (v: RepoView)
    requires CollisionFree(hash)
    ensures v.defaultBranch == branch && branch in v.branches
  {
    Run(hash, Created(hash, branch, files, t), es)
  }

  /** What VisibleCommit answers at time `now` after the run. */
  ghost function Answer(hash: Object -> Sha, branch: string, files: Files, t: Time, es: seq<Event>, now: Time): Sha
    requires CollisionFree(hash)
  {
    Resolve(Main(After(hash, branch, files, t, es)), now).visible
  }

  /** The latest reading at which the branch has been resolved since its last commit, asking at `now` included. */
  function AskedAt(branch: string, es: seq<Event>, now: Time): Time {
    Latest(TrackOf(branch, es).top, now)
  }

  /** Lazy promotion is eager promotion: every answer is a pure function of the commits and the latest reading. */
  lemma {:induction false} LazyIsEager(hash: Object -> Sha, branch: string, files: Files, t: Time, es: seq<Event>,
                                       now: Time)
    requires CollisionFree(hash)
    ensures Answer(hash, branch, files, t, es, now)
         == VisibleAt(OriginOf(hash, branch, files, t), Requests(branch, es), AskedAt(branch, es, now))
  {
    RunIsReachable(hash, branch, files, t, es);
    ResolveTracks(OriginOf(hash, branch, files, t), TrackOf(branch, es), Main(After(hash, branch, files, t, es)), now);
  }

  /** The visible history as the branch record has it, which a due promotion may extend. */
  ghost function HistoryShown(hash: Object -> Sha, branch: string, files: Files, t: Time, es: seq<Event>): seq<Sha>
    requires CollisionFree(hash)
  {
    Shown(OriginOf(hash, branch, files, t), Requests(branch, es), Main(After(hash, branch, files, t, es)))
  }

  /**
   * Every commit ever added is on the visible history, superseded, or still pending: in the record as it
   * stands, and as a look at any time would find it.
   */
  lemma {:induction false} CommitsAreConserved(hash: Object -> Sha, branch: string, files: Files, t: Time,
                                               es: seq<Event>, now: Time)
    requires CollisionFree(hash)
    ensures var b := Main(After(hash, branch, files, t, es)); var adds := Requests(branch, es);
            && b.index == |adds|
            && b.index == |HistoryShown(hash, branch, files, t, es)| - 1 + Superseded(adds)
                          + if b.pending.Some? then 1 else 0
    ensures var b := Resolve(Main(After(hash, branch, files, t, es)), now); var adds := Requests(branch, es);
            var depth := |Chain(OriginOf(hash, branch, files, t), adds, AskedAt(branch, es, now))| - 1;
            b.index == depth + Superseded(adds) + if b.pending.Some? then 1 else 0
  {
    var o, tr, b := OriginOf(hash, branch, files, t), TrackOf(branch, es), Main(After(hash, branch, files, t, es));
    RunIsReachable(hash, branch, files, t, es);
    ResolveTracks(o, tr, b, now);
    Conservation(o, tr.adds, AskedAt(branch, es, now));
    if tr.adds != [] { Conservation(o, Front(tr.adds), Last(tr.adds).t0); }
  }

  /** `c` is a parent chain of the store, oldest first, starting at a commit without parents. */
  ghost predicate IsHistory(objects: map<Sha, Object>, c: seq<Sha>) {
    && c != []
    && (forall k :: 0 <= k < |c| ==> c[k] in objects && objects[c[k]].Commit?)
    && objects[c[0]].parents == []
    && (forall k :: 0 < k < |c| ==> objects[c[k]].parents == [c[k - 1]])
  }

  lemma ChainIsHistory(o: Origin, adds: seq<Added>, objects: map<Sha, Object>, t: Time)
    requires CommitsStored(o, adds, objects)
    ensures IsHistory(objects, Chain(o, adds, t))
  {
    var c := Chain(o, adds, t);
    forall k | 0 < k < |c|
      ensures c[k] in objects && objects[c[k]].Commit? && objects[c[k]].parents == [c[k - 1]]
    {
      var i := ChainEdges(o, adds, t, k);
      assert Holds(o.hash, objects, CommitFor(o, adds[..i]));
    }
  }

  /** No call ever takes back any of the history shown. */
  lemma {:induction false} ShownAcross(o: Origin, tr: Track, v: RepoView, e: Event)
    requires CollisionFree(o.hash) && Reachable(o, tr, v)
    ensures v.branches.Keys == {o.branch} && v.defaultBranch == o.branch
    ensures Shown(o, tr.adds, Main(v)) <= Shown(o, Follow(o.branch, tr, e).adds, Main(Step(o.hash, v, e)))
  {
    hide WellFounded, CommitsStored, TagsOnHistory, RefsMirror, WithCommit, Shown;
    var at := ResolvedAt(o.branch, e);
    if at.Some? {
      ShownResolved(o, tr, Main(v), at.value);
      if Commits(o.branch, e) {
        ResolveTracks(o, tr, Main(v), e.t0);
        ShownExtends(o, Touch(tr, e.t0), Flush(v, o.branch, e.t0), RequestOf(o.branch, tr, e));
      }
    }
  }

  /**
   * Fast-forward only: the visible history is a parent chain in the store ending at the visible commit, and
   * whatever is done later, at whatever readings, only extends it; so does asking at any time.
   */
  lemma {:induction false} FastForwardOnly(hash: Object -> Sha, branch: string, files: Files, t: Time, es: seq<Event>,
                                           n: nat, now: Time)
    requires CollisionFree(hash) && n <= |es|
    ensures var v, v' := After(hash, branch, files, t, es[..n]), After(hash, branch, files, t, es);
            var c, c' := HistoryShown(hash, branch, files, t, es[..n]), HistoryShown(hash, branch, files, t, es);
            var asked := Chain(OriginOf(hash, branch, files, t), Requests(branch, es), AskedAt(branch, es, now));
            && c <= c' <= asked && IsHistory(v'.objects, asked)
            && Last(c) == Main(v).visible && Last(c') == Main(v').visible
            && Last(asked) == Answer(hash, branch, files, t, es, now)
  {
    var o, tr, v' := OriginOf(hash, branch, files, t), TrackOf(branch, es), After(hash, branch, files, t, es);
    RunIsReachable(hash, branch, files, t, es[..n]);
    RunIsReachable(hash, branch, files, t, es);
    ShownResolved(o, TrackOf(branch, es[..n]), Main(After(hash, branch, files, t, es[..n])), now);
    ShownResolved(o, tr, Main(v'), now);
    ResolveTracks(o, tr, Main(v'), now);
    ChainIsHistory(o, tr.adds, v'.objects, AskedAt(branch, es, now));
    ShownOnlyGrows(hash, branch, files, t, es, n);
  }

  lemma {:induction false} ShownOnlyGrows(hash: Object -> Sha, branch: string, files: Files, t: Time, es: seq<Event>,
                                          n: nat)
    requires CollisionFree(hash) && n <= |es|
    ensures HistoryShown(hash, branch, files, t, es[..n]) <= HistoryShown(hash, branch, files, t, es)
    decreases |es|
  {
    if n == |es| {
      assert es[..n] == es;
    } else {
      var front := es[..|es| - 1];
      assert front[..n] == es[..n];
      ShownOnlyGrows(hash, branch, files, t, front, n);
      RunIsReachable(hash, branch, files, t, front);
      ShownAcross(OriginOf(hash, branch, files, t), TrackOf(branch, front), After(hash, branch, files, t, front),
                  es[|es| - 1]);
    }
  }

  /** The storer's references and the branch table never disagree, and tags never touch branches. */
  lemma {:induction false} TwoCopiesAgree(hash: Object -> Sha, branch: string, files: Files, t: Time, es: seq<Event>)
    requires CollisionFree(hash)
    ensures RefsAgree(After(hash, branch, files, t, es))
    ensures var v := After(hash, branch, files, t, es);
            && v.refs.Keys == {"HEAD", "refs/heads/" + branch} + (set n | n in v.tags :: "refs/tags/" + n)
            && v.refs["HEAD"] == SymbolicRef("refs/heads/" + branch)
            && v.refs["refs/heads/" + branch] == HashRef(Main(v).visible)
            && forall n :: n in v.tags ==>
                 v.refs["refs/tags/" + n]
                 == HashRef(if v.tags[n].tagObject.Some? then v.tags[n].tagObject.value else v.tags[n].commit)
  {
    RunIsReachable(hash, branch, files, t, es);
    RefsByName(After(hash, branch, files, t, es));
  }

  lemma RefsByName(v: RepoView)
    requires RefsAgree(v)
    ensures v.refs.Keys == {"HEAD", "refs/heads/" + v.defaultBranch} + (set n | n in v.tags :: "refs/tags/" + n)
    ensures forall n :: n in v.tags ==> v.refs["refs/tags/" + n] == HashRef(TagTarget(v.tags[n]))
  {
    forall n | n in v.tags
      ensures "refs/tags/" + n in v.refs && v.refs["refs/tags/" + n] == HashRef(TagTarget(v.tags[n]))
    {
      assert TagRef(n) == "refs/tags/" + n;
    }
  }

  /** `a` is `d` or one of its ancestors in the store. */
  ghost predicate AncestorOrSelf(objects: map<Sha, Object>, a: Sha, d: Sha) {
    exists c :: IsHistory(objects, c) && a in c && Last(c) == d
  }

  /** The history shown is a parent chain of the store, and ends at the visible commit of the record. */
  lemma ShownIsHistory(o: Origin, tr: Track, v: RepoView)
    requires Reachable(o, tr, v)
    ensures IsHistory(v.objects, Shown(o, tr.adds, Main(v))) && Last(Shown(o, tr.adds, Main(v))) == Main(v).visible
  {
    ShownResolved(o, tr, Main(v), 0);
    if tr.adds != [] && Main(v).pending.Some? {
      FrontStored(o, tr.adds, v.objects);
      ChainIsHistory(o, Front(tr.adds), v.objects, Last(tr.adds).t0);
      assert Shown(o, tr.adds, Main(v)) == Chain(o, Front(tr.adds), Last(tr.adds).t0);
    } else {
      ChainIsHistory(o, tr.adds, v.objects, Latest(tr.top, 0));
    }
  }

  /**
   * Every commit ever added is stored with its tree, every tag's commit is the visible commit of the record
   * or one of its ancestors, and every object a reference or another object names is stored, without cycles.
   */
  lemma {:induction false} NothingIsLost(hash: Object -> Sha, branch: string, files: Files, t: Time, es: seq<Event>)
    requires CollisionFree(hash)
    ensures var v := After(hash, branch, files, t, es); var o := OriginOf(hash, branch, files, t);
            && WellFounded(hash, v.objects) && CommitsStored(o, Requests(branch, es), v.objects)
            && (forall n :: n in v.tags ==> AncestorOrSelf(v.objects, v.tags[n].commit, Main(v).visible))
            && forall r :: r in v.refs && v.refs[r].HashRef? ==> v.refs[r].sha in v.objects
  {
    RunIsReachable(hash, branch, files, t, es);
    RefsStored(OriginOf(hash, branch, files, t), TrackOf(branch, es), After(hash, branch, files, t, es));
  }

  lemma RefsStored(o: Origin, tr: Track, v: RepoView)
    requires Reachable(o, tr, v)
    ensures forall n :: n in v.tags ==> AncestorOrSelf(v.objects, v.tags[n].commit, Main(v).visible)
    ensures forall r :: r in v.refs && v.refs[r].HashRef? ==> v.refs[r].sha in v.objects
  {
    var c := Shown(o, tr.adds, Main(v));
    ShownIsHistory(o, tr, v);
    forall n | n in v.tags
      ensures AncestorOrSelf(v.objects, v.tags[n].commit, Main(v).visible) && TagTarget(v.tags[n]) in v.objects
    {
      assert TagOnHistory(c, n, v.tags[n], v.objects);
    }
  }

  lemma FrontStored(o: Origin, adds: seq<Added>, objects: map<Sha, Object>)
    requires adds != [] && CommitsStored(o, adds, objects)
    ensures CommitsStored(o, Front(adds), objects)
  {
    forall i | 0 < i <= |Front(adds)|
      ensures Holds(o.hash, objects, CommitFor(o, Front(adds)[..i]))
      ensures Stored(o.hash, objects, Front(adds)[i - 1].files)
    {
      assert Front(adds)[..i] == adds[..i];
      assert Holds(o.hash, objects, CommitFor(o, adds[..i])) && Stored(o.hash, objects, adds[i - 1].files);
    }
  }
}
