// What every public call keeps, whatever the clock does.
module RepoInvariant {
  import opened Objects
  import opened TreeBuilder
  import opened RepoSpec

  function Main(v: RepoView): BranchView
    requires v.defaultBranch in v.branches
  {
    v.branches[v.defaultBranch]
  }

  /** The storer's references are a second copy of the branch and tag tables. */
  ghost predicate RefsAgree(v: RepoView) {
    && v.branches.Keys == {v.defaultBranch}
    && RefsMirror(v.refs, v.defaultBranch, Main(v).visible, v.tags)
  }

  ghost predicate RefsMirror(refs: map<string, Ref>, branch: string, visible: Sha, tags: map<string, TagView>) {
    && HeadRef(branch) in refs && refs[HeadRef(branch)] == HashRef(visible)
    && "HEAD" in refs && refs["HEAD"] == SymbolicRef(HeadRef(branch))
    && (forall n :: n in tags ==> TagRef(n) in refs && refs[TagRef(n)] == HashRef(TagTarget(tags[n])))
    && (forall r :: r in refs ==> r == HeadRef(branch) || r == "HEAD" || IsTagRef(r, tags))
  }

  ghost predicate IsTagRef(r: string, tags: map<string, TagView>) {
    exists n :: n in tags && r == TagRef(n)
  }

  function TagTarget(t: TagView): Sha {
    if t.tagObject.Some? then t.tagObject.value else t.commit
  }

  lemma FlushKeepsRefs(v: RepoView, t: Time)
    requires RefsAgree(v)
    ensures RefsAgree(Flush(v, v.defaultBranch, t))
  {
    MirrorHead(v.refs, v.defaultBranch, Main(v).visible, v.tags, Resolve(Main(v), t).visible);
  }

  lemma MirrorHead(refs: map<string, Ref>, branch: string, visible: Sha, tags: map<string, TagView>, sha: Sha)
    requires RefsMirror(refs, branch, visible, tags)
    ensures RefsMirror(refs[HeadRef(branch) := HashRef(sha)], branch, sha, tags)
  {
    var refs' := refs[HeadRef(branch) := HashRef(sha)];
    RefNamesDistinct(branch, "");
    forall n | n in tags
      ensures TagRef(n) in refs' && refs'[TagRef(n)] == HashRef(TagTarget(tags[n]))
    {
      RefNamesDistinct(branch, n);
    }
    forall r | r in refs'
      ensures r == HeadRef(branch) || r == "HEAD" || IsTagRef(r, tags)
    {
    }
  }

  lemma MirrorTag(refs: map<string, Ref>, branch: string, visible: Sha, tags: map<string, TagView>,
                  name: string, t: TagView)
    requires RefsMirror(refs, branch, visible, tags)
    ensures RefsMirror(refs[TagRef(name) := HashRef(TagTarget(t))], branch, visible, tags[name := t])
  {
    var refs', tags' := refs[TagRef(name) := HashRef(TagTarget(t))], tags[name := t];
    RefNamesDistinct(branch, name);
    forall n | n in tags'
      ensures TagRef(n) in refs' && refs'[TagRef(n)] == HashRef(TagTarget(tags'[n]))
    {
      if TagRef(n) == TagRef(name) { TagRefInjective(n, name); }
    }
    forall r | r in refs'
      ensures r == HeadRef(branch) || r == "HEAD" || IsTagRef(r, tags')
    {
      if r == TagRef(name) {
        assert name in tags';
      } else if IsTagRef(r, tags) {
        var n :| n in tags && r == TagRef(n);
        assert n in tags';
      }
    }
  }

  ghost predicate IsCommit(objects: map<Sha, Object>, sha: Sha) {
    sha in objects && objects[sha].Commit?
  }

  predicate ChildOf(objects: map<Sha, Object>, sha: Sha, parent: Sha) {
    sha in objects && objects[sha].Commit? && objects[sha].parents == [parent]
  }

  /**
   * The two copies agree, the store is closed and acyclic, the branch and the tags name stored
   * objects, and a pending commit is the child of the visible one.
   */
  ghost predicate Sound(hash: Object -> Sha, v: RepoView) {
    && RefsAgree(v)
    && WellFounded(hash, v.objects)
    && IsCommit(v.objects, Main(v).visible)
    && (Main(v).pending.Some? ==> ChildOf(v.objects, Main(v).pending.value, Main(v).visible))
    && TagsStored(v.objects, v.tags)
  }

  ghost predicate TagsStored(objects: map<Sha, Object>, tags: map<string, TagView>) {
    forall n :: n in tags ==> TagTarget(tags[n]) in objects && IsCommit(objects, tags[n].commit)
  }

  lemma TagsStayStored(objects: map<Sha, Object>, objects': map<Sha, Object>, tags: map<string, TagView>)
    requires Extends(objects, objects') && TagsStored(objects, tags)
    ensures TagsStored(objects', tags)
  {
  }

  lemma CreatedMirrors(hash: Object -> Sha, branch: string, files: Files, t: Time)
    requires CollisionFree(hash)
    ensures RefsAgree(Created(hash, branch, files, t))
  {
  }

  lemma CreatedIsSound(hash: Object -> Sha, branch: string, files: Files, t: Time)
    requires CollisionFree(hash)
    ensures Sound(hash, Created(hash, branch, files, t))
  {
    EmptyIsWellFounded(hash);
    PutCommitKeepsWellFounded(hash, map[], None, files, INITIAL_MESSAGE, t);
    PutCommitStores(hash, map[], None, files, INITIAL_MESSAGE, t);
    CreatedMirrors(hash, branch, files, t);
  }

  lemma FlushKeepsSound(hash: Object -> Sha, v: RepoView, t: Time)
    requires Sound(hash, v)
    ensures Sound(hash, Flush(v, v.defaultBranch, t))
  {
    FlushKeepsRefs(v, t);
  }

  lemma CommitKeepsRefs(hash: Object -> Sha, v: RepoView, delay: int, files: Files, t1: Time, t2: Time)
    requires CollisionFree(hash) && RefsAgree(v)
    ensures RefsAgree(WithCommit(hash, v, v.defaultBranch, delay, files, t1, t2))
  {
    var v' := WithCommit(hash, v, v.defaultBranch, delay, files, t1, t2);
    MirrorHead(v.refs, v.defaultBranch, Main(v).visible, v.tags, Main(v').visible);
  }

  lemma CommitKeepsObjects(hash: Object -> Sha, v: RepoView, delay: int, files: Files, t1: Time, t2: Time)
    requires CollisionFree(hash) && v.defaultBranch in v.branches
    requires WellFounded(hash, v.objects) && Main(v).visible in v.objects
    ensures var objects' := WithCommit(hash, v, v.defaultBranch, delay, files, t1, t2).objects;
            WellFounded(hash, objects') && Extends(v.objects, objects')
  {
    hide WellFounded, Extends, PutAll, CommitObjects, CommitOf;
    var b, br := Main(v), v.defaultBranch;
    var message := CommitMessage(b.index + 1, br);
    PutCommitKeepsWellFounded(hash, v.objects, Some(b.visible), files, message, t1);
    PutAllOnlyAdds(hash, v.objects, CommitObjects(hash, Some(b.visible), files, message, t1));
  }

  lemma CommitKeepsSound(hash: Object -> Sha, v: RepoView, delay: int, files: Files, t1: Time, t2: Time)
    requires CollisionFree(hash) && Sound(hash, v)
    ensures var v' := WithCommit(hash, v, v.defaultBranch, delay, files, t1, t2);
            Sound(hash, v') && Extends(v.objects, v'.objects)
  {
    CommitKeepsRefs(hash, v, delay, files, t1, t2);
    CommitKeepsObjects(hash, v, delay, files, t1, t2);
    var objects' := WithCommit(hash, v, v.defaultBranch, delay, files, t1, t2).objects;
    CommitKeepsBranch(hash, v, objects', delay, files, t1, t2);
    TagsStayStored(v.objects, objects', v.tags);
  }

  lemma CommitKeepsBranch(hash: Object -> Sha, v: RepoView, objects': map<Sha, Object>, delay: int, files: Files,
                          t1: Time, t2: Time)
    requires CollisionFree(hash) && v.defaultBranch in v.branches && IsCommit(v.objects, Main(v).visible)
    requires var v' := WithCommit(hash, v, v.defaultBranch, delay, files, t1, t2);
             objects' == v'.objects && Extends(v.objects, objects')
    ensures var b := Main(WithCommit(hash, v, v.defaultBranch, delay, files, t1, t2));
            IsCommit(objects', b.visible) && (b.pending.Some? ==> ChildOf(objects', b.pending.value, b.visible))
  {
  }

  lemma TagKeepsSound(hash: Object -> Sha, v: RepoView, name: string, annotated: bool, t1: Time)
    requires CollisionFree(hash) && Sound(hash, v)
    ensures var v' := WithTag(hash, v, name, v.defaultBranch, annotated, t1);
            Sound(hash, v') && Extends(v.objects, v'.objects)
  {
    var v' := WithTag(hash, v, name, v.defaultBranch, annotated, t1);
    if annotated { PutKeepsWellFounded(hash, v.objects, TagObject(name, Main(v).visible, t1)); }
    MirrorTag(v.refs, v.defaultBranch, Main(v).visible, v.tags, name, v'.tags[name]);
    TagsStayStored(v.objects, v'.objects, v.tags);
  }

  /** Every call keeps the invariant and only ever adds objects. */
  lemma {:induction false} StepKeepsSound(hash: Object -> Sha, v: RepoView, e: Event)
    requires CollisionFree(hash) && Sound(hash, v)
    ensures Sound(hash, Step(hash, v, e)) && Extends(v.objects, Step(hash, v, e).objects)
  {
    match e
    case Add(b, delay, files, t0, t1, t2) =>
      if b == v.defaultBranch {
        FlushKeepsSound(hash, v, t0);
        if files.Some? { CommitKeepsSound(hash, Flush(v, b, t0), delay, files.value, t1, t2); }
      }
    case Look(b, t) => if b == v.defaultBranch { FlushKeepsSound(hash, v, t); }
    case LookAll(t) => FlushKeepsSound(hash, v, t);
    case PutTag(name, b, annotated, t, t1) =>
      if b == v.defaultBranch {
        FlushKeepsSound(hash, v, t);
        TagKeepsSound(hash, Flush(v, b, t), name, annotated, t1);
      }
  }
}
