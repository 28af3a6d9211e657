// What a tag names, from the moment it is taken until it is taken again.
module RepoTags {
  import opened Objects
  import opened TreeSpec
  import opened TreeBuilder
  import opened RepoSpec
  import opened RepoInvariant
  import opened Timeline
  import opened RepoHistory

  /** Tag `name` is on commit `c`: the reference names it directly, or through a stored tag object made at `t1`. */
  ghost predicate TaggedAs(hash: Object -> Sha, v: RepoView, name: string, c: Sha, annotated: bool, t1: Time) {
    && name in v.tags && v.tags[name].commit == c && TagRef(name) in v.refs
    && if !annotated then v.tags[name].tagObject == None && v.refs[TagRef(name)] == HashRef(c)
       else
         var o := Tag(name, c, "tag " + name, Seconds(t1));
         && v.tags[name].tagObject == Some(hash(o)) && Holds(hash, v.objects, o)
         && v.refs[TagRef(name)] == HashRef(hash(o))
  }

  /** A tag is put on the commit a look at the same time would answer, whether or not the name was taken before. */
  lemma {:induction false} TagTaken(hash: Object -> Sha, branch: string, files: Files, t: Time, es: seq<Event>,
                                    name: string, annotated: bool, at: Time, t1: Time)
    requires CollisionFree(hash)
    ensures var v := After(hash, branch, files, t, es);
            var v' := After(hash, branch, files, t, es + [PutTag(name, branch, annotated, at, t1)]);
            && TaggedAs(hash, v', name, Answer(hash, branch, files, t, es, at), annotated, t1)
            && v'.tags - {name} == v.tags - {name}
            && (!annotated ==> v'.objects == v.objects)
    ensures Answer(hash, branch, files, t, es, at)
         == VisibleAt(OriginOf(hash, branch, files, t), Requests(branch, es), AskedAt(branch, es, at))
  {
    hide Created, VisibleAt, TrackOf;
    assert (es + [PutTag(name, branch, annotated, at, t1)])[..|es|] == es;
    TagWritten(hash, After(hash, branch, files, t, es), branch, name, annotated, at, t1);
    LazyIsEager(hash, branch, files, t, es, at);
  }

  lemma TagWritten(hash: Object -> Sha, v: RepoView, branch: string, name: string, annotated: bool, at: Time, t1: Time)
    requires CollisionFree(hash) && v.defaultBranch in v.branches && branch in v.branches
    ensures var v' := Step(hash, v, PutTag(name, branch, annotated, at, t1));
            && TaggedAs(hash, v', name, Resolve(v.branches[branch], at).visible, annotated, t1)
            && v'.tags - {name} == v.tags - {name}
            && (!annotated ==> v'.objects == v.objects)
  {
    RefNamesDistinct(branch, name);
  }

  predicate Takes(e: Event, name: string, branch: string) {
    e.PutTag? && e.name == name && e.branch == branch
  }

  /** No other call changes what a tag names, nor a tag of another name. */
  lemma {:induction false} TagKept(hash: Object -> Sha, v: RepoView, e: Event, name: string, c: Sha, annotated: bool,
                                   t1: Time)
    requires CollisionFree(hash) && Sound(hash, v) && TaggedAs(hash, v, name, c, annotated, t1)
    requires !Takes(e, name, v.defaultBranch)
    ensures TaggedAs(hash, Step(hash, v, e), name, c, annotated, t1)
  {
    StepKeepsSound(hash, v, e);
    var v' := Step(hash, v, e);
    TableKept(hash, v, e, name);
    assert v'.refs[TagRef(name)] == HashRef(TagTarget(v'.tags[name]));
  }

  lemma TableKept(hash: Object -> Sha, v: RepoView, e: Event, name: string)
    requires CollisionFree(hash) && v.branches.Keys == {v.defaultBranch} && name in v.tags
    requires !Takes(e, name, v.defaultBranch)
    ensures name in Step(hash, v, e).tags && Step(hash, v, e).tags[name] == v.tags[name]
  {
    hide PutAll, CommitObjects, CommitOf, NextCommit, Resolve, Promotes, TagObject;
  }

  /** At any later time a tag is what its last taking, call `n` of the run, made it. */
  lemma TagsNameLastTaken(hash: Object -> Sha, branch: string, files: Files, t: Time, es: seq<Event>, n: nat)
    requires CollisionFree(hash) && n < |es| && es[n].PutTag? && es[n].branch == branch
    requires forall k :: n < k < |es| ==> !Takes(es[k], es[n].name, branch)
    ensures TaggedAs(hash, After(hash, branch, files, t, es), es[n].name,
                     Answer(hash, branch, files, t, es[..n], es[n].t), es[n].annotated, es[n].t1)
  {
    hide TaggedAs, Answer, After, Takes;
    var e := es[n];
    assert es[..n + 1] == es[..n] + [e];
    TagTaken(hash, branch, files, t, es[..n], e.name, e.annotated, e.t, e.t1);
    TagKeptOn(hash, branch, files, t, es, n + 1, e.name, Answer(hash, branch, files, t, es[..n], e.t), e.annotated,
              e.t1);
  }

  lemma {:induction false} TagKeptOn(hash: Object -> Sha, branch: string, files: Files, t: Time, es: seq<Event>,
                                     n: nat, name: string, c: Sha, annotated: bool, t1: Time)
    requires CollisionFree(hash) && n <= |es|
    requires TaggedAs(hash, After(hash, branch, files, t, es[..n]), name, c, annotated, t1)
    requires forall k :: n <= k < |es| ==> !Takes(es[k], name, branch)
    ensures TaggedAs(hash, After(hash, branch, files, t, es), name, c, annotated, t1)
    decreases |es|
  {
    hide TaggedAs, After, Sound, Step, Takes;
    if n == |es| {
      assert es[..n] == es;
    } else {
      var front := es[..|es| - 1];
      assert front[..n] == es[..n];
      TagKeptOn(hash, branch, files, t, front, n, name, c, annotated, t1);
      RunIsSound(hash, branch, files, t, front);
      RunOpens(hash, branch, files, t, es);
      TagKept(hash, After(hash, branch, files, t, front), es[|es| - 1], name, c, annotated, t1);
    }
  }
}
