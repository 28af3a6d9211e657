// SimRepo.Push as one step of the repository: a look, then a commit.
module Pushes {
  import opened Objects
  import opened RepoSpec
  import opened RepoInvariant

  /** One push: its options, what the content provider returned, and its four clock readings in order. */
  datatype Pushing = Pushing(delay: int, files: Option<Files>, tv: Time, t0: Time, t1: Time, t2: Time)

  ghost function AfterPush(hash: Object -> Sha, v: RepoView, branch: string, p: Pushing): (r: RepoView)
    requires CollisionFree(hash) && v.defaultBranch in v.branches
    ensures r.defaultBranch == v.defaultBranch && r.branches.Keys == v.branches.Keys
  {
    Step(hash, Step(hash, v, Look(branch, p.tv)), Add(branch, p.delay, p.files, p.t0, p.t1, p.t2))
  }

  /** Whether the push goes through. */
  predicate Goes(v: RepoView, branch: string, p: Pushing) {
    branch in v.branches && p.files.Some?
  }

  /** The SHA the push returns, empty when it fails. */
  ghost function PushedSha(hash: Object -> Sha, v: RepoView, branch: string, p: Pushing): Sha {
    if Goes(v, branch, p) then NewSha(hash, Flush(v, branch, p.tv), branch, p.files.value, p.t0, p.t1) else ""
  }

  /** What the branch showed when the push looked, empty for an unknown one. */
  function Seen(v: RepoView, branch: string, p: Pushing): Sha {
    if branch in v.branches then Resolve(v.branches[branch], p.tv).visible else ""
  }

  /** SimRepo's two tables: the branch a SHA was pushed on, and what a branch showed before its last push. */
  datatype Tables = Tables(shaBranch: map<Sha, string>, prevSHA: map<string, Sha>)

  function Recorded(t: Tables, branch: string, sha: Sha, prev: Sha): Tables {
    Tables(t.shaBranch[sha := branch], t.prevSHA[branch := prev])
  }

  /** The branch buildEvent settles on before it falls back to the default: the one given, or that of the SHA. */
  function BranchOf(t: Tables, sha: Sha, branch: string): string {
    if branch == "" && sha in t.shaBranch then t.shaBranch[sha] else branch
  }

  /** The Before of an event. */
  function BeforeOf(t: Tables, sha: Sha, branch: string): Sha {
    var b := BranchOf(t, sha, branch);
    if b in t.prevSHA then t.prevSHA[b] else ""
  }

  /** The new commit is stored as the child of what was seen, unless a promotion fell due in between. */
  lemma {:induction false} PushedOntoVisible(hash: Object -> Sha, v: RepoView, branch: string, p: Pushing)
    requires CollisionFree(hash) && v.defaultBranch in v.branches && branch in v.branches && p.files.Some?
    ensures var b := Resolve(v.branches[branch], p.tv);
            && ChildOf(AfterPush(hash, v, branch, p).objects, PushedSha(hash, v, branch, p), Resolve(b, p.t0).visible)
            && (!Promotes(b, p.t0) ==> Resolve(b, p.t0).visible == Seen(v, branch, p))
            && (p.tv == p.t0 ==> !Promotes(b, p.t0))
  {
    NewCommitHeld(hash, Flush(Flush(v, branch, p.tv), branch, p.t0), branch, p.delay, p.files.value, p.t1, p.t2);
  }
}
