// What a client that checks out the visible commit finds.
module Checkouts {
  import opened Text
  import opened Objects
  import opened TreeSpec
  import opened TreeWalk
  import opened TreeBuilder
  import opened RepoSpec
  import opened RepoInvariant
  import opened Timeline
  import opened RepoHistory

  /** The files visible at `t`: those of the newest commit that was due when its fate was decided, or the first ones. */
  function FilesAt(first: Files, adds: seq<Added>, t: Time): Files {
    if adds == [] then first
    else
      var a := adds[|adds| - 1];
      if a.delay == 0 || t >= a.t2 + a.delay then a.files else FilesAt(first, adds[..|adds| - 1], a.t0)
  }

  /** `sha` is a stored commit whose stored tree is that of `files`. */
  ghost predicate CommitOfFiles(hash: Object -> Sha, objects: map<Sha, Object>, sha: Sha, files: Files) {
    && sha in objects && objects[sha].Commit? && objects[sha].tree == RootHash(hash, files)
    && Stored(hash, objects, files)
  }

  /**
   * From file map to visible commit and back: after any run on any clock, walking the tree of the commit a look
   * answers lists the files of the commit that is visible then, in order.
   */
  lemma {:induction false} CheckoutReadsBack(hash: Object -> Sha, branch: string, files: Files, t: Time,
                                             es: seq<Event>, now: Time, depth: nat)
    requires CollisionFree(hash)
    requires depth > LongestPath(FilesAt(files, Requests(branch, es), AskedAt(branch, es, now)).Keys)
    ensures var objects := After(hash, branch, files, t, es).objects;
            var sha := Answer(hash, branch, files, t, es, now);
            var shown := FilesAt(files, Requests(branch, es), AskedAt(branch, es, now));
            && sha in objects && objects[sha].Commit?
            && Walk(objects, objects[sha].tree, depth) == Some(ListingOf(shown))
  {
    hide CommitOfFiles, FilesAt, Walk, After, Reachable, Sound, Stored;
    var o, v := OriginOf(hash, branch, files, t), After(hash, branch, files, t, es);
    RunIsReachable(hash, branch, files, t, es);
    RunIsSound(hash, branch, files, t, es);
    LazyIsEager(hash, branch, files, t, es, now);
    HasCommits(o, TrackOf(branch, es), v);
    FirstCommit(hash, branch, files, t, v.objects);
    VisibleFiles(o, files, Requests(branch, es), v.objects, AskedAt(branch, es, now));
    ReadsBack(hash, v.objects, Answer(hash, branch, files, t, es, now),
              FilesAt(files, Requests(branch, es), AskedAt(branch, es, now)), depth);
  }

  lemma HasCommits(o: Origin, tr: Track, v: RepoView)
    requires Reachable(o, tr, v)
    ensures CommitsStored(o, tr.adds, v.objects)
  {
  }

  /**
   * Every commit ever added reads back as the files it was made of, visible or not; it carries its number on the
   * branch and the second it was signed, and its parent is what was visible when it was requested.
   */
  lemma {:induction false} EveryCommitReadsBack(hash: Object -> Sha, branch: string, files: Files, t: Time,
                                                es: seq<Event>, i: nat, depth: nat)
    requires CollisionFree(hash) && 0 < i <= |Requests(branch, es)|
    requires depth > LongestPath(Requests(branch, es)[i - 1].files.Keys)
    ensures var objects := After(hash, branch, files, t, es).objects;
            var sha := ShaOf(OriginOf(hash, branch, files, t), Requests(branch, es)[..i]);
            && sha in objects && objects[sha].Commit?
            && Walk(objects, objects[sha].tree, depth) == Some(ListingOf(Requests(branch, es)[i - 1].files))
            && objects[sha].message == "commit " + Decimal(i) + " on branch " + branch
            && objects[sha].seconds == Seconds(Requests(branch, es)[i - 1].t1)
            && objects[sha].parents == [ParentOf(OriginOf(hash, branch, files, t), Requests(branch, es), i)]
  {
    hide CommitOfFiles, Walk, After, Reachable, Stored;
    var o, v, adds := OriginOf(hash, branch, files, t), After(hash, branch, files, t, es), Requests(branch, es);
    RunIsReachable(hash, branch, files, t, es);
    HasCommits(o, TrackOf(branch, es), v);
    AddedFiles(o, adds, v.objects, i);
    AddedSigned(o, adds, v.objects, i);
    ReadsBack(hash, v.objects, ShaOf(o, adds[..i]), adds[i - 1].files, depth);
  }

  /** The initial commit stays stored, as it was made. */
  lemma {:induction false} FirstReadsBack(hash: Object -> Sha, branch: string, files: Files, t: Time, es: seq<Event>,
                                          depth: nat)
    requires CollisionFree(hash) && depth > LongestPath(files.Keys)
    ensures var objects, root := After(hash, branch, files, t, es).objects, OriginOf(hash, branch, files, t).root;
            && root in objects
            && objects[root] == Commit(RootHash(hash, files), [], "initial commit", Seconds(t))
            && Walk(objects, RootHash(hash, files), depth) == Some(ListingOf(files))
  {
    hide Walk, After, Sound, Stored;
    var objects := After(hash, branch, files, t, es).objects;
    RunIsSound(hash, branch, files, t, es);
    FirstCommit(hash, branch, files, t, objects);
    PutCommitStores(hash, map[], None, files, INITIAL_MESSAGE, t);
    WalkReadsBack(hash, objects, files, depth);
  }

  lemma ReadsBack(hash: Object -> Sha, objects: map<Sha, Object>, sha: Sha, files: Files, depth: nat)
    requires CommitOfFiles(hash, objects, sha, files) && depth > LongestPath(files.Keys)
    ensures sha in objects && objects[sha].Commit? && Walk(objects, objects[sha].tree, depth) == Some(ListingOf(files))
  {
    WalkReadsBack(hash, objects, files, depth);
  }

  lemma FirstCommit(hash: Object -> Sha, branch: string, files: Files, t: Time, objects: map<Sha, Object>)
    requires CollisionFree(hash) && Extends(Created(hash, branch, files, t).objects, objects)
    ensures CommitOfFiles(hash, objects, OriginOf(hash, branch, files, t).root, files)
  {
    PutCommitStores(hash, map[], None, files, INITIAL_MESSAGE, t);
    StoredMonotone(hash, Created(hash, branch, files, t).objects, objects, files);
  }

  lemma AddedSigned(o: Origin, adds: seq<Added>, objects: map<Sha, Object>, i: nat)
    requires CommitsStored(o, adds, objects) && 0 < i <= |adds|
    ensures var sha := ShaOf(o, adds[..i]);
            && sha in objects && objects[sha].Commit?
            && objects[sha].message == "commit " + Decimal(i) + " on branch " + o.branch
            && objects[sha].seconds == Seconds(adds[i - 1].t1) && objects[sha].parents == [ParentOf(o, adds, i)]
  {
    hide Stored;
    assert Holds(o.hash, objects, CommitFor(o, adds[..i]));
    assert Front(adds[..i]) == adds[..i - 1] && Last(adds[..i]) == adds[i - 1];
  }

  lemma AddedFiles(o: Origin, adds: seq<Added>, objects: map<Sha, Object>, i: nat)
    requires CommitsStored(o, adds, objects) && 0 < i <= |adds|
    ensures CommitOfFiles(o.hash, objects, ShaOf(o, adds[..i]), adds[i - 1].files)
  {
    hide Stored;
    assert Holds(o.hash, objects, CommitFor(o, adds[..i]));
  }

  lemma {:induction false} VisibleFiles(o: Origin, files: Files, adds: seq<Added>, objects: map<Sha, Object>, t: Time)
    requires CommitsStored(o, adds, objects) && CommitOfFiles(o.hash, objects, o.root, files)
    ensures CommitOfFiles(o.hash, objects, VisibleAt(o, adds, t), FilesAt(files, adds, t))
    decreases |adds|
  {
    hide CommitOfFiles, CommitsStored, VisibleAt, CommitFor;
    if adds == [] {
      NothingAdded(o, t);
    } else {
      VisibleNewest(o, adds, t);
      AddedFiles(o, adds, objects, |adds|);
      assert adds[..|adds|] == adds;
      FrontStored(o, adds, objects);
      VisibleFiles(o, files, Front(adds), objects, Last(adds).t0);
    }
  }

  lemma NothingAdded(o: Origin, t: Time)
    ensures VisibleAt(o, [], t) == o.root
  {
  }
}
