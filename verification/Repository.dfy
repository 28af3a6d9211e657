// store.Repo and branchState: the objects whose methods the repository's callers use.
module Repository {
  import opened Objects
  import opened TreeBuilder
  import opened RepoSpec
  import opened RepoInvariant

  /** branchState: the visible commit of a branch and at most one pending one. */
  class BranchState {
    var visibleSHA: Sha
    var pendingSHA: Option<Sha>   // None stands for the empty string
    var promoteAt: Time
    var commitIndex: nat
    ghost const home: Storage     // the storer of the repository it belongs to

    constructor (sha: Sha, ghost home: Storage)
      ensures View() == BranchView(sha, None, ZERO_TIME, 0) && this.home == home
    {
      this.home := home;
      visibleSHA, pendingSHA, promoteAt, commitIndex := sha, None, ZERO_TIME, 0;
    }

    function View(): BranchView
      reads this
    {
      BranchView(visibleSHA, pendingSHA, promoteAt, commitIndex)
    }

    method Resolve(now: Time) returns (sha: Sha, promoted: bool)
      modifies this
      ensures View() == RepoSpec.Resolve(old(View()), now)
      ensures sha == View().visible && promoted == Promotes(old(View()), now)
    {
      if pendingSHA.Some? && !(now < promoteAt) {
        visibleSHA := pendingSHA.value;
        pendingSHA := None;
        promoteAt := ZERO_TIME;
        return visibleSHA, true;
      }
      return visibleSHA, false;
    }
  }

  class Repo {
    const host: string
    const owner: string
    const name: string
    const defaultBranch: string
    const storer: Storage
    var branches: map<string, BranchState>
    var tags: map<string, TagView>

    /** Nothing ever adds a second branch, so the table holds the default branch alone; it is this repository's own. */
    ghost predicate Shaped()
      reads this
    {
      && CollisionFree(storer.hash) && branches.Keys == {defaultBranch}
      && forall b :: b in branches ==> branches[b].home == storer
    }

    ghost function View(): (v: RepoView)
      requires Shaped()
      reads this, storer, branches.Values
      ensures v.defaultBranch in v.branches
    {
      RepoView(defaultBranch, map b | b in branches :: branches[b].View(), tags, storer.objects, storer.refs)
    }

    ghost predicate Valid()
      reads this, storer, branches.Values
    {
      Shaped() && Sound(storer.hash, View())
    }

    /** newRepo, for content that could be read. */
    constructor (hash: Object -> Sha, host: string, owner: string, name: string, branch: string, files: Files, t: Time)
      requires CollisionFree(hash)
      ensures Valid() && storer.hash == hash && fresh(storer) && fresh(branches.Values)
      ensures this.host == host && this.owner == owner && this.name == name && defaultBranch == branch
      ensures View() == Created(hash, branch, files, t)
    {
      hide Sound, WellFounded;
      this.host, this.owner, this.name, defaultBranch := host, owner, name, branch;
      var s := new Storage(hash);
      var sha := Seed(s, branch, files, t);
      var b := new BranchState(sha, s);
      storer, branches, tags := s, map[branch := b], map[];
      new;
      assert View().branches == map[branch := b.View()];
      assert View() == Created(hash, branch, files, t);
      CreatedIsSound(hash, branch, files, t);
    }

    /** newRepo's writes to an empty storer. */
    static method Seed(s: Storage, branch: string, files: Files, t: Time) returns (sha: Sha)
      requires CollisionFree(s.hash) && s.objects == map[] && s.refs == map[]
      modifies s
      ensures var v := Created(s.hash, branch, files, t);
              && s.objects == v.objects && s.refs == v.refs
              && v.branches == map[branch := BranchView(sha, None, ZERO_TIME, 0)]
    {
      var c := BuildCommit(s, None, files, INITIAL_MESSAGE, t);
      sha := c.value;
      s.SetReference(HeadRef(branch), HashRef(sha));
      s.SetReference("HEAD", SymbolicRef(HeadRef(branch)));
    }

    /** Resolving a branch and, when it moved, rewriting its reference. */
    method Flush(branch: string, now: Time) returns (sha: Sha)
      requires Shaped() && branch in branches
      modifies storer`refs, branches.Values
      ensures Shaped() && View() == RepoSpec.Flush(old(View()), branch, now)
      ensures sha == View().branches[branch].visible
    {
      var promoted;
      sha, promoted := branches[branch].Resolve(now);
      if promoted { SyncRef(branch, sha); }
    }

    method SyncRef(branch: string, sha: Sha)
      requires Shaped()
      modifies storer`refs
      ensures storer.refs == old(storer.refs)[HeadRef(branch) := HashRef(sha)]
    {
      storer.SetReference(HeadRef(branch), HashRef(sha));
    }

    /** `files` is what the content provider returned, None when it failed. */
    method AddCommit(branch: string, delay: int, files: Option<Files>, t0: Time, t1: Time, t2: Time)
      returns (r: Result<Sha>)
      requires Valid()
      modifies storer, branches.Values
      ensures Valid() && View() == Step(storer.hash, old(View()), Add(branch, delay, files, t0, t1, t2))
      ensures r.Ok? <==> branch in branches && files.Some?
      ensures r.Ok? ==> r.value == NewSha(storer.hash, old(View()), branch, files.value, t0, t1)
    {
      StepKeepsSound(storer.hash, View(), Add(branch, delay, files, t0, t1, t2));
      if branch !in branches { return Err("not found"); }
      var parent := Flush(branch, t0);
      if files.None? { return Err("content"); }
      r := WriteCommit(branch, parent, delay, files.value, t1, t2);
    }

    /** The second half of AddCommit: the new commit, then the branch record. */
    method WriteCommit(branch: string, parent: Sha, delay: int, files: Files, t1: Time, t2: Time)
      returns (r: Result<Sha>)
      requires Shaped() && branch in branches && parent == branches[branch].visibleSHA
      modifies storer, branches.Values
      ensures Shaped() && View() == WithCommit(storer.hash, old(View()), branch, delay, files, t1, t2)
      ensures r == Ok(storer.hash(NextCommit(storer.hash, old(View()).branches[branch], branch, files, t1)))
    {
      hide PutAll, CommitObjects, CommitOf, RepoSpec.MoveBranch;
      var newIndex := branches[branch].commitIndex + 1;
      r := WriteObjects(branch, parent, newIndex, files, t1);
      if r.Err? { return; }
      MoveBranch(branches[branch], branch, r.value, newIndex, delay, t2);
    }

    method WriteObjects(branch: string, parent: Sha, newIndex: nat, files: Files, t1: Time) returns (r: Result<Sha>)
      requires Shaped()
      modifies storer`objects
      ensures Shaped()
      ensures var message := CommitMessage(newIndex, branch);
              && View() == old(View()).(objects := PutAll(storer.hash, old(storer.objects),
                                                          CommitObjects(storer.hash, Some(parent), files, message, t1)))
              && r == Ok(storer.hash(CommitOf(storer.hash, Some(parent), files, message, t1)))
    {
      r := BuildCommit(storer, Some(parent), files, CommitMessage(newIndex, branch), t1);
    }

    method MoveBranch(bs: BranchState, branch: string, sha: Sha, newIndex: nat, delay: int, t2: Time)
      requires Shaped() && branch in branches && bs == branches[branch]
      modifies storer`refs, bs
      ensures Shaped() && View() == RepoSpec.MoveBranch(old(View()), branch, sha, newIndex, delay, t2)
    {
      bs.commitIndex := newIndex;
      if delay == 0 {
        bs.visibleSHA, bs.pendingSHA, bs.promoteAt := sha, None, ZERO_TIME;
        SyncRef(branch, sha);
      } else {
        bs.pendingSHA, bs.promoteAt := Some(sha), t2 + delay;
      }
    }

    method VisibleCommit(branch: string, now: Time) returns (sha: Sha, ok: bool)
      requires Valid()
      modifies storer`refs, branches.Values
      ensures Valid() && View() == Step(storer.hash, old(View()), Look(branch, now))
      ensures ok <==> branch in branches
      ensures sha == if ok then RepoSpec.Resolve(old(View()).branches[branch], now).visible else ""
      ensures ok ==> sha == branches[branch].visibleSHA
    {
      StepKeepsSound(storer.hash, View(), Look(branch, now));
      if branch !in branches { return "", false; }
      sha := Flush(branch, now);
      ok := true;
    }

    method VisibleRefs(now: Time) returns (refs: map<string, Ref>)
      requires Valid()
      modifies storer`refs, branches.Values
      ensures Valid() && View() == Step(storer.hash, old(View()), LookAll(now))
      ensures refs == View().refs
    {
      StepKeepsSound(storer.hash, View(), LookAll(now));
      var todo := branches.Keys;
      while todo != {}
        invariant todo <= branches.Keys && Shaped()
        invariant View() == if todo == {} then RepoSpec.Flush(old(View()), defaultBranch, now) else old(View())
      {
        var branch :| branch in todo;
        var sha := Flush(branch, now);
        todo := todo - {branch};
      }
      refs := storer.refs;
    }

    method AddTag(tagName: string, branch: string, annotated: bool, t: Time, t1: Time) returns (r: Result<Sha>)
      requires Valid()
      modifies this`tags, storer, branches.Values
      ensures Valid() && View() == Step(storer.hash, old(View()), PutTag(tagName, branch, annotated, t, t1))
      ensures r.Ok? <==> branch in branches
      ensures r.Ok? ==>
                var c := RepoSpec.Resolve(old(View()).branches[branch], t).visible;
                && TagRef(tagName) in storer.refs && storer.refs[TagRef(tagName)] == HashRef(r.value)
                && tags == old(tags)[tagName := TagView(c, if annotated then Some(r.value) else None)]
                && (!annotated ==> r.value == c && storer.objects == old(storer.objects))
                && (annotated ==>
                      && r.value == storer.hash(Tag(tagName, c, "tag " + tagName, Seconds(t1)))
                      && storer.objects
                         == old(storer.objects)[r.value := Tag(tagName, c, "tag " + tagName, Seconds(t1))])
    {
      StepKeepsSound(storer.hash, View(), PutTag(tagName, branch, annotated, t, t1));
      if branch !in branches { return Err("not found"); }
      var commit := Flush(branch, t);
      r := WriteTag(tagName, branch, commit, annotated, t1);
    }

    /** The second half of AddTag. */
    method WriteTag(tagName: string, branch: string, commit: Sha, annotated: bool, t1: Time) returns (r: Result<Sha>)
      requires Shaped() && branch in branches && commit == branches[branch].visibleSHA
      modifies this`tags, storer
      ensures Shaped() && View() == WithTag(storer.hash, old(View()), tagName, branch, annotated, t1)
      ensures r.Ok? && TagRef(tagName) in storer.refs && storer.refs[TagRef(tagName)] == HashRef(r.value)
      ensures tags == old(tags)[tagName := TagView(commit, if annotated then Some(r.value) else None)]
      ensures !annotated ==> r.value == commit && storer.objects == old(storer.objects)
      ensures annotated ==>
                && r.value == storer.hash(Tag(tagName, commit, "tag " + tagName, Seconds(t1)))
                && storer.objects
                   == old(storer.objects)[r.value := Tag(tagName, commit, "tag " + tagName, Seconds(t1))]
    {
      var target := commit;
      var ts := TagView(commit, None);
      if annotated {
        target := storer.SetObject(TagObject(tagName, commit, t1));
        ts := TagView(commit, Some(target));
      }
      storer.SetReference(TagRef(tagName), HashRef(target));
      tags := tags[tagName := ts];
      assert View().branches == old(View()).branches;
      return Ok(target);
    }
  }
}
