// The state of one simulated repository and what each public call does to it.
module RepoSpec {
  import opened Text
  import opened Objects
  import opened TreeSpec
  import opened TreeBuilder

  datatype BranchView = BranchView(visible: Sha, pending: Option<Sha>, promoteAt: Time, index: nat)

  datatype TagView = TagView(commit: Sha, tagObject: Option<Sha>)

  datatype RepoView = RepoView(
    defaultBranch: string,
    branches: map<string, BranchView>,
    tags: map<string, TagView>,
    objects: map<Sha, Object>,
    refs: map<string, Ref>)

  // ----- names and messages -----

  function HeadRef(branch: string): string { "refs/heads/" + branch }

  function TagRef(name: string): string { "refs/tags/" + name }

  function CommitMessage(index: nat, branch: string): string {
    "commit " + Decimal(index) + " on branch " + branch
  }

  const INITIAL_MESSAGE := "initial commit"

  lemma RefNamesDistinct(branch: string, tag: string)
    ensures HeadRef(branch) != TagRef(tag) && HeadRef(branch) != "HEAD" && TagRef(tag) != "HEAD"
  {
    assert HeadRef(branch)[5] == 'h' && TagRef(tag)[5] == 't';
  }

  lemma TagRefInjective(a: string, b: string)
    requires TagRef(a) == TagRef(b)
    ensures a == b
  {
    assert a == TagRef(a)[10..] && b == TagRef(b)[10..];
  }

  /** Two commits of one branch never carry the same message. */
  lemma MessageInjective(m: nat, n: nat, branch: string)
    requires CommitMessage(m, branch) == CommitMessage(n, branch)
    ensures m == n
  {
    var p, tail := "commit ", " on branch " + branch;
    assert CommitMessage(m, branch) == p + Decimal(m) + tail;
    assert CommitMessage(n, branch) == p + Decimal(n) + tail;
    MiddleCancel(p, Decimal(m), Decimal(n), tail);
    DecimalInjective(m, n);
  }

  lemma MiddleCancel(p: string, a: string, b: string, tail: string)
    requires p + a + tail == p + b + tail
    ensures a == b
  {
    assert |a| == |b|;
    assert (p + a + tail)[|p|..|p| + |a|] == a;
    assert (p + b + tail)[|p|..|p| + |b|] == b;
  }

  // ----- lazy promotion -----

  /** branchState.resolve: a pending commit becomes visible once the clock has reached promoteAt. */
  function Resolve(b: BranchView, now: Time): BranchView {
    if b.pending.Some? && now >= b.promoteAt then
      BranchView(b.pending.value, None, ZERO_TIME, b.index)
    else
      b
  }

  predicate Promotes(b: BranchView, now: Time) {
    b.pending.Some? && now >= b.promoteAt
  }

  /** Resolve one branch and, if it moved, its reference in the storer. */
  function Flush(v: RepoView, branch: string, now: Time): (r: RepoView)
    requires branch in v.branches
    ensures r.defaultBranch == v.defaultBranch && r.branches.Keys == v.branches.Keys
  {
    var b := Resolve(v.branches[branch], now);
    var v' := v.(branches := v.branches[branch := b]);
    if Promotes(v.branches[branch], now) then SyncRef(v', branch, b.visible) else v'
  }

  function SyncRef(v: RepoView, branch: string, sha: Sha): RepoView {
    v.(refs := v.refs[HeadRef(branch) := HashRef(sha)])
  }

  // ----- the public calls -----

  /** newRepo: an initial commit, visible at once, and HEAD pointing at the default branch. */
  ghost function Created(hash: Object -> Sha, branch: string, files: Files, t: Time): RepoView
    requires CollisionFree(hash)
  {
    var sha := hash(CommitOf(hash, None, files, INITIAL_MESSAGE, t));
    RepoView(branch,
             map[branch := BranchView(sha, None, ZERO_TIME, 0)],
             map[],
             PutAll(hash, map[], CommitObjects(hash, None, files, INITIAL_MESSAGE, t)),
             map[HeadRef(branch) := HashRef(sha), "HEAD" := SymbolicRef(HeadRef(branch))])
  }

  /** The commit AddCommit builds on a branch that has just been resolved. */
  ghost function NextCommit(hash: Object -> Sha, b: BranchView, branch: string, files: Files, t: Time): Object {
    CommitOf(hash, Some(b.visible), files, CommitMessage(b.index + 1, branch), t)
  }

  /** The SHA AddCommit returns: the branch is resolved at `t0`, the commit signed at `t1`. */
  ghost function NewSha(hash: Object -> Sha, v: RepoView, branch: string, files: Files, t0: Time, t1: Time): Sha
    requires branch in v.branches
  {
    hash(NextCommit(hash, Flush(v, branch, t0).branches[branch], branch, files, t1))
  }

  /**
   * AddCommit on an existing branch: `t0`, `t1` and `t2` are the clock readings of
   * resolve, of the commit's signature and of promoteAt. A failing content provider
   * (None) leaves only the flush behind.
   */
  ghost function AfterAdd(hash: Object -> Sha, v: RepoView, branch: string, delay: int, files: Option<Files>,
                          t0: Time, t1: Time, t2: Time): (r: RepoView)
    requires CollisionFree(hash) && branch in v.branches
    ensures r.defaultBranch == v.defaultBranch && r.branches.Keys == v.branches.Keys
  {
    var v1 := Flush(v, branch, t0);
    if files.None? then v1 else WithCommit(hash, v1, branch, delay, files.value, t1, t2)
  }

  /** The second half of AddCommit, on a branch that has just been resolved. */
  ghost function WithCommit(hash: Object -> Sha, v: RepoView, branch: string, delay: int, files: Files,
                            t1: Time, t2: Time): (r: RepoView)
    requires CollisionFree(hash) && branch in v.branches
    ensures r.defaultBranch == v.defaultBranch && r.branches.Keys == v.branches.Keys
  {
    var b := v.branches[branch];
    MoveBranch(WithObjects(hash, v, b, branch, files, t1), branch, hash(NextCommit(hash, b, branch, files, t1)),
               b.index + 1, delay, t2)
  }

  /** The new commit and its tree in the store. */
  ghost function WithObjects(hash: Object -> Sha, v: RepoView, b: BranchView, branch: string, files: Files, t1: Time)
    : RepoView
    requires CollisionFree(hash)
  {
    var os := CommitObjects(hash, Some(b.visible), files, CommitMessage(b.index + 1, branch), t1);
    v.(objects := PutAll(hash, v.objects, os))
  }

  lemma NewCommitHeld(hash: Object -> Sha, v: RepoView, branch: string, delay: int, files: Files, t1: Time, t2: Time)
    requires CollisionFree(hash) && branch in v.branches
    ensures Holds(hash, WithCommit(hash, v, branch, delay, files, t1, t2).objects,
                  NextCommit(hash, v.branches[branch], branch, files, t1))
  {
  }

  /** A new commit is visible at once without a delay and pending until `t2 + delay` with one. */
  function MoveBranch(v: RepoView, branch: string, sha: Sha, index: nat, delay: int, t2: Time): (r: RepoView)
    requires branch in v.branches
    ensures r.defaultBranch == v.defaultBranch && r.branches.Keys == v.branches.Keys
  {
    if delay == 0 then
      SyncRef(v.(branches := v.branches[branch := BranchView(sha, None, ZERO_TIME, index)]), branch, sha)
    else
      v.(branches := v.branches[branch := BranchView(v.branches[branch].visible, Some(sha), t2 + delay, index)])
  }

  /** The tag object AddTag writes for an annotated tag. */
  function TagObject(name: string, commit: Sha, when: Time): Object {
    Tag(name, commit, "tag " + name, Seconds(when))
  }

  ghost function AfterTag(hash: Object -> Sha, v: RepoView, name: string, branch: string, annotated: bool,
                          t0: Time, t1: Time): (r: RepoView)
    requires CollisionFree(hash) && branch in v.branches
    ensures r.defaultBranch == v.defaultBranch && r.branches.Keys == v.branches.Keys
  {
    WithTag(hash, Flush(v, branch, t0), name, branch, annotated, t1)
  }

  /** The second half of AddTag. */
  ghost function WithTag(hash: Object -> Sha, v: RepoView, name: string, branch: string, annotated: bool, t1: Time)
    : (r: RepoView)
    requires CollisionFree(hash) && branch in v.branches
    ensures r.defaultBranch == v.defaultBranch && r.branches.Keys == v.branches.Keys
  {
    var commit := v.branches[branch].visible;
    if annotated then
      var o := TagObject(name, commit, t1);
      v.(objects := v.objects[hash(o) := o],
         refs := v.refs[TagRef(name) := HashRef(hash(o))],
         tags := v.tags[name := TagView(commit, Some(hash(o)))])
    else
      v.(refs := v.refs[TagRef(name) := HashRef(commit)], tags := v.tags[name := TagView(commit, None)])
  }

  // ----- runs -----

  /** One public call with the clock readings it took; unknown branches are refused without effect. */
  datatype Event =
    | Add(branch: string, delay: int, files: Option<Files>, t0: Time, t1: Time, t2: Time)
    | Look(branch: string, t: Time)
    | LookAll(t: Time)
    | PutTag(name: string, branch: string, annotated: bool, t: Time, t1: Time)

  ghost function Step(hash: Object -> Sha, v: RepoView, e: Event): (r: RepoView)
    requires CollisionFree(hash) && v.defaultBranch in v.branches
    ensures r.defaultBranch == v.defaultBranch && r.branches.Keys == v.branches.Keys
  {
    match e
    case Add(branch, delay, files, t0, t1, t2) =>
      if branch in v.branches then AfterAdd(hash, v, branch, delay, files, t0, t1, t2) else v
    case Look(branch, t) => if branch in v.branches then Flush(v, branch, t) else v
    case LookAll(t) => Flush(v, v.defaultBranch, t)
    case PutTag(name, branch, annotated, t, t1) =>
      if branch in v.branches then AfterTag(hash, v, name, branch, annotated, t, t1) else v
  }

  ghost function Run(hash: Object -> Sha, v: RepoView, es: seq<Event>): (r: RepoView)
    requires CollisionFree(hash) && v.defaultBranch in v.branches
    ensures r.defaultBranch == v.defaultBranch && r.branches.Keys == v.branches.Keys
  {
    if es == [] then v else Step(hash, Run(hash, v, es[..|es| - 1]), es[|es| - 1])
  }

  /** The last clock reading of a call. */
  function End(e: Event): Time {
    match e
    case Add(_, _, _, _, _, t2) => t2
    case Look(_, t) => t
    case LookAll(t) => t
    case PutTag(_, _, _, _, t1) => t1
  }

  /** The readings of a call never go back, starting from `now`. */
  predicate InOrder(e: Event, now: Time) {
    match e
    case Add(_, _, _, t0, t1, t2) => now <= t0 <= t1 <= t2
    case Look(_, t) => now <= t
    case LookAll(t) => now <= t
    case PutTag(_, _, _, t, t1) => now <= t <= t1
  }

  function Clock(es: seq<Event>, start: Time): Time {
    if es == [] then start else End(es[|es| - 1])
  }

  /** A run under a clock that never goes back. */
  ghost predicate Monotone(es: seq<Event>, start: Time) {
    es != [] ==>
      Monotone(es[..|es| - 1], start) && InOrder(es[|es| - 1], Clock(es[..|es| - 1], start))
  }
}
