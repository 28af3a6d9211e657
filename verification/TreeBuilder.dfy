// buildTree and buildCommit: writing a file map into the object store.
module TreeBuilder {
  import opened Text
  import opened Sorting
  import opened Objects
  import opened TreeSpec

  // ----- the split into root files and sub-directories -----

  lemma HeadsGrow(done: Files, p: string, c: Content)
    ensures Heads(done[p := c]) == Heads(done) + {Head(p)}
  {
  }

  lemma BelowUnchanged(done: Files, p: string, c: Content, k: string)
    requires Head(p) != k
    ensures Below(done[p := c], k) == Below(done, k)
  {
  }

  lemma BelowGrows(done: Files, p: string, c: Content, k: string, rest: string)
    requires Head(p) == k && p == k + rest
    ensures Below(done[p := c], k) == Below(done, k)[rest := c]
  {
  }

  ghost predicate FilesSplit(files: Files, rootFiles: Files) {
    && (forall k :: k in rootFiles <==> k in Heads(files) && !IsDirKey(k))
    && (forall k :: k in rootFiles ==> k in files && rootFiles[k] == files[k])
  }

  ghost predicate DirsSplit(files: Files, subdirs: map<string, Files>) {
    && (forall d {:trigger d in subdirs} :: d in subdirs <==> d + "/" in Heads(files))
    && (forall d {:trigger subdirs[d]} :: d in subdirs ==> subdirs[d] == Below(files, d + "/"))
  }

  lemma SplitFile(done: Files, p: string, c: Content, rootFiles: Files, subdirs: map<string, Files>)
    requires FilesSplit(done, rootFiles) && DirsSplit(done, subdirs) && '/' !in p
    ensures FilesSplit(done[p := c], rootFiles[p := c]) && DirsSplit(done[p := c], subdirs)
  {
    SlashFree(p);
    HeadsGrow(done, p, c);
    forall d
      ensures d + "/" != p && Below(done[p := c], d + "/") == Below(done, d + "/")
    {
      EndsInSlash(d);
      BelowUnchanged(done, p, c, d + "/");
    }
    AddFile(done, done[p := c], rootFiles, subdirs, p, c);
  }

  lemma AddFile(done: Files, done': Files, rootFiles: Files, subdirs: map<string, Files>, p: string, c: Content)
    requires FilesSplit(done, rootFiles) && DirsSplit(done, subdirs)
    requires done' == done[p := c] && Heads(done') == Heads(done) + {p} && !IsDirKey(p)
    requires forall d {:trigger Below(done', d + "/")} :: d + "/" != p && Below(done', d + "/") == Below(done, d + "/")
    ensures FilesSplit(done', rootFiles[p := c]) && DirsSplit(done', subdirs)
  {
    AddRootFile(done, done', rootFiles, p, c);
    KeepDirs(done, done', subdirs, p);
  }

  lemma AddRootFile(done: Files, done': Files, rootFiles: Files, p: string, c: Content)
    requires FilesSplit(done, rootFiles)
    requires done' == done[p := c] && Heads(done') == Heads(done) + {p} && !IsDirKey(p)
    ensures FilesSplit(done', rootFiles[p := c])
  {
  }

  lemma KeepDirs(done: Files, done': Files, subdirs: map<string, Files>, p: string)
    requires DirsSplit(done, subdirs) && Heads(done') == Heads(done) + {p}
    requires forall d {:trigger Below(done', d + "/")} :: d + "/" != p && Below(done', d + "/") == Below(done, d + "/")
    ensures DirsSplit(done', subdirs)
  {
    forall d
      ensures d in subdirs <==> d + "/" in Heads(done')
    {
      var b := Below(done', d + "/");
    }
  }

  lemma EndsInSlash(d: string)
    ensures IsDirKey(d + "/") && (d + "/")[..|d|] == d && '/' in d + "/"
  {
  }

  lemma SplitNestedFiles(done: Files, p: string, c: Content, rootFiles: Files)
    requires FilesSplit(done, rootFiles) && IsDirKey(Head(p))
    ensures FilesSplit(done[p := c], rootFiles)
  {
  }

  lemma SplitNestedDirs(done: Files, p: string, c: Content, subdirs: map<string, Files>,
                        dir: string, rest: string, sub: Files)
    requires DirsSplit(done, subdirs)
    requires Head(p) == dir + "/" && p == dir + "/" + rest
    requires sub == if dir in subdirs then subdirs[dir] else map[]
    ensures DirsSplit(done[p := c], subdirs[dir := sub[rest := c]])
  {
    var k := dir + "/";
    HeadsGrow(done, p, c);
    BelowGrows(done, p, c, k, rest);
    if dir !in subdirs { BelowNothing(done, k); }
    forall d | d != dir
      ensures d + "/" != k && Below(done[p := c], d + "/") == Below(done, d + "/")
    {
      SlashCancel(d, dir);
      BelowUnchanged(done, p, c, d + "/");
    }
    ReplaceDir(done, done[p := c], subdirs, dir, sub[rest := c]);
  }

  lemma ReplaceDir(done: Files, done': Files, subdirs: map<string, Files>, dir: string, sub: Files)
    requires DirsSplit(done, subdirs)
    requires Heads(done') == Heads(done) + {dir + "/"} && Below(done', dir + "/") == sub
    requires forall d {:trigger Below(done', d + "/")} ::
               d != dir ==> d + "/" != dir + "/" && Below(done', d + "/") == Below(done, d + "/")
    ensures DirsSplit(done', subdirs[dir := sub])
  {
    var dirs := subdirs[dir := sub];
    forall d
      ensures d in dirs <==> d + "/" in Heads(done')
    {
      var b := Below(done', d + "/");
      assert d != dir ==> (d in dirs <==> d in subdirs);
    }
  }

  lemma SlashCancel(d: string, e: string)
    ensures d + "/" == e + "/" <==> d == e
  {
    EndsInSlash(d);
    EndsInSlash(e);
  }

  lemma BelowNothing(files: Files, k: string)
    requires k !in Heads(files)
    ensures Below(files, k) == map[]
  {
  }

  lemma CutAtSlash(p: string, i: nat)
    requires '/' in p && i == IndexOf(p, '/')
    ensures Head(p) == p[..i] + "/" && p == p[..i] + "/" + p[i + 1..] && IsDirKey(Head(p))
  {
  }

  /** The part of `files` outside `todo`. */
  ghost function Without(files: Files, todo: set<string>): Files {
    map p | p in files && p !in todo :: files[p]
  }

  lemma TakeOne(files: Files, todo: set<string>, p: string)
    requires p in todo && todo <= files.Keys
    ensures Without(files, todo - {p}) == Without(files, todo)[p := files[p]]
  {
  }

  lemma TakenNone(files: Files)
    ensures FilesSplit(Without(files, files.Keys), map[]) && DirsSplit(Without(files, files.Keys), map[])
    ensures Without(files, {}) == files
  {
  }

  /** The first loop of buildTree, in whatever order the map yields its paths. */
  method Split(files: Files) returns (rootFiles: Files, subdirs: map<string, Files>)
    ensures FilesSplit(files, rootFiles) && DirsSplit(files, subdirs)
  {
    rootFiles, subdirs := map[], map[];
    var todo := files.Keys;
    TakenNone(files);
    while todo != {}
      invariant todo <= files.Keys
      invariant FilesSplit(Without(files, todo), rootFiles) && DirsSplit(Without(files, todo), subdirs)
    {
      var path :| path in todo;
      TakeOne(files, todo, path);
      rootFiles, subdirs := SplitOne(rootFiles, subdirs, path, files[path], Without(files, todo));
      todo := todo - {path};
    }
  }

  /** One turn of that loop. */
  method SplitOne(roots: Files, dirs: map<string, Files>, path: string, content: Content, ghost done: Files)
    returns (rootFiles: Files, subdirs: map<string, Files>)
    requires FilesSplit(done, roots) && DirsSplit(done, dirs)
    ensures FilesSplit(done[path := content], rootFiles) && DirsSplit(done[path := content], subdirs)
  {
    rootFiles, subdirs := roots, dirs;
    var idx := IndexOf(path, '/');
    if idx == |path| {
      SplitFile(done, path, content, roots, dirs);
      rootFiles := rootFiles[path := content];
    } else {
      var dir, rest := path[..idx], path[idx + 1..];
      var sub := if dir in subdirs then subdirs[dir] else map[];
      CutAtSlash(path, idx);
      SplitNestedFiles(done, path, content, roots);
      SplitNestedDirs(done, path, content, dirs, dir, rest, sub);
      subdirs := subdirs[dir := sub[rest := content]];
    }
  }

  // ----- sorting the entries -----

  predicate EntryLess(a: TreeEntry, b: TreeEntry) {
    Less(SortKey(a), SortKey(b))
  }

  /** The order object.Tree.Encode insists on. */
  predicate InGitOrder(es: seq<TreeEntry>) {
    forall i :: 0 < i < |es| ==> !Less(SortKey(es[i]), SortKey(es[i - 1]))
  }

  lemma EntryLessIsStrictWeak()
    ensures StrictWeak(EntryLess)
  {
    forall a, b | EntryLess(a, b)
      ensures !EntryLess(b, a)
    {
      LessAsymmetric(SortKey(a), SortKey(b));
    }
    forall a, b, c | !EntryLess(b, a) && !EntryLess(c, b)
      ensures !EntryLess(c, a)
    {
      NotLessTransitive(SortKey(a), SortKey(b), SortKey(c));
    }
  }

  lemma NotLessTransitive(a: string, b: string, c: string)
    requires !Less(b, a) && !Less(c, b)
    ensures !Less(c, a)
  {
  }

  ghost predicate Distinct(ks: seq<string>) {
    forall i, j :: 0 <= i < j < |ks| ==> ks[i] != ks[j]
  }

  /** `es` holds exactly the entries for the heads in `done`, in some order given by `ks`. */
  ghost predicate Gathered(hash: Object -> Sha, files: Files, es: seq<TreeEntry>, ks: seq<string>, done: set<string>) {
    && EntriesFor(hash, files, es, ks) && Distinct(ks)
    && done <= Heads(files) && forall k :: k in ks <==> k in done
  }

  lemma GatherOne(hash: Object -> Sha, files: Files, es: seq<TreeEntry>, ks: seq<string>, done: set<string>,
                  k: string, e: TreeEntry)
    requires Gathered(hash, files, es, ks, done)
    requires k in Heads(files) && k !in done && e == EntryOf(hash, files, k)
    ensures Gathered(hash, files, es + [e], ks + [k], done + {k})
  {
  }

  /** However the entries were collected, every outcome of an unstable sort is the same tree object. */
  lemma SortedEntriesAreTheTree(hash: Object -> Sha, files: Files, es: seq<TreeEntry>, ks: seq<string>,
                                sorted: seq<TreeEntry>, perm: seq<nat>)
    requires Gathered(hash, files, es, ks, Heads(files))
    requires |sorted| == |es| && Sorts(es, perm, EntryLess)
    requires forall i :: 0 <= i < |sorted| ==> sorted[i] == es[perm[i]]
    ensures Tree(sorted) == TreeOf(hash, files)
  {
    var ls := seq(|perm|, i requires 0 <= i < |perm| => ks[perm[i]]);
    PermutedKeysAscend(hash, files, es, ks, perm, ls);
    PermutedKeysCover(files, ks, perm, ls);
    AscendingUnique(ls, SortedKeys(Heads(files)));
    SameEntries(hash, files, sorted, ls);
  }

  lemma SameEntries(hash: Object -> Sha, files: Files, sorted: seq<TreeEntry>, ls: seq<string>)
    requires ls == SortedKeys(Heads(files)) && EntriesFor(hash, files, sorted, ls)
    ensures Tree(sorted) == TreeOf(hash, files)
  {
  }

  lemma SortedIsInGitOrder(es: seq<TreeEntry>, sorted: seq<TreeEntry>, perm: seq<nat>)
    requires |sorted| == |es| && Sorts(es, perm, EntryLess)
    requires forall i :: 0 <= i < |sorted| ==> sorted[i] == es[perm[i]]
    ensures InGitOrder(sorted)
  {
    EntryLessIsStrictWeak();
    forall i | 0 < i < |sorted|
      ensures !Less(SortKey(sorted[i]), SortKey(sorted[i - 1]))
    {
      assert !EntryLess(es[perm[i]], es[perm[i - 1]]);
    }
  }

  lemma PermutedKeysAscend(hash: Object -> Sha, files: Files, es: seq<TreeEntry>, ks: seq<string>, perm: seq<nat>,
                           ls: seq<string>)
    requires EntriesFor(hash, files, es, ks) && Distinct(ks)
    requires Sorts(es, perm, EntryLess)
    requires |ls| == |perm| && forall i :: 0 <= i < |ls| ==> ls[i] == ks[perm[i]]
    ensures Ascending(ls)
  {
    forall i, j | 0 <= i < j < |ls|
      ensures Less(ls[i], ls[j])
    {
      SortKeyOfEntry(hash, files, ls[i]);
      SortKeyOfEntry(hash, files, ls[j]);
      assert perm[i] != perm[j];
      LessTotal(ls[i], ls[j]);
    }
  }

  lemma PermutedKeysCover(files: Files, ks: seq<string>, perm: seq<nat>, ls: seq<string>)
    requires forall k :: k in ks <==> k in Heads(files)
    requires IsPermutation(perm, |ks|)
    requires |ls| == |perm| && forall i :: 0 <= i < |ls| ==> ls[i] == ks[perm[i]]
    ensures forall k :: k in ls <==> k in SortedKeys(Heads(files))
  {
    forall k | k in Heads(files)
      ensures k in ls
    {
      var x :| 0 <= x < |ks| && ks[x] == k;
      assert x in perm;
      var i :| 0 <= i < |perm| && perm[i] == x;
      assert ls[i] == k;
    }
  }

  // ----- writing -----

  method WriteTree(s: Storage, es: seq<TreeEntry>) returns (r: Result<Sha>)
    modifies s`objects
    ensures InGitOrder(es) ==> r == Ok(s.hash(Tree(es))) && s.objects == old(s.objects)[s.hash(Tree(es)) := Tree(es)]
    ensures !InGitOrder(es) ==> r.Err? && s.objects == old(s.objects)
  {
    if !InGitOrder(es) { return Err("entries in tree are not sorted"); }
    var h := s.SetObject(Tree(es));
    return Ok(h);
  }

  /** The loop over root files: one blob and one entry each. */
  method WriteFiles(s: Storage, ghost files: Files, rootFiles: Files) returns (es: seq<TreeEntry>,
                    ghost ks: seq<string>)
    requires CollisionFree(s.hash) && FilesSplit(files, rootFiles)
    modifies s`objects
    ensures Gathered(s.hash, files, es, ks, rootFiles.Keys)
    ensures s.objects == PutAll(s.hash, old(s.objects), ObjectsUnder(s.hash, files, rootFiles.Keys))
  {
    es, ks := [], [];
    var todo := rootFiles.Keys;
    ghost var done: set<string> := {};
    PutNothing(s.hash, s.objects, files);
    while todo != {}
      invariant todo <= rootFiles.Keys && done == rootFiles.Keys - todo
      invariant Gathered(s.hash, files, es, ks, done)
      invariant s.objects == PutAll(s.hash, old(s.objects), ObjectsUnder(s.hash, files, done))
    {
      var name :| name in todo;
      var h := s.SetObject(Blob(rootFiles[name]));
      PutBlob(s.hash, old(s.objects), files, done, name);
      GatherOne(s.hash, files, es, ks, done, name, TreeEntry(name, Regular, h));
      es, ks := es + [TreeEntry(name, Regular, h)], ks + [name];
      done := done + {name};
      todo := todo - {name};
    }
    assert done == rootFiles.Keys;
  }

  lemma PutBlob(hash: Object -> Sha, objects: map<Sha, Object>, files: Files, done: set<string>, k: string)
    requires CollisionFree(hash) && done <= Heads(files) && k in Heads(files) && k !in done
    requires k in files && !IsDirKey(k)
    ensures PutAll(hash, objects, ObjectsUnder(hash, files, done))[hash(Blob(files[k])) := Blob(files[k])]
         == PutAll(hash, objects, ObjectsUnder(hash, files, done + {k}))
  {
    PutOneMore(hash, objects, files, done, k);
    PutAllSingle(hash, PutAll(hash, objects, ObjectsUnder(hash, files, done)), Blob(files[k]));
  }

  lemma PutNothing(hash: Object -> Sha, objects: map<Sha, Object>, files: Files)
    requires CollisionFree(hash)
    ensures PutAll(hash, objects, ObjectsUnder(hash, files, {})) == objects
  {
  }

  lemma PutOneMore(hash: Object -> Sha, objects: map<Sha, Object>, files: Files, done: set<string>, k: string)
    requires CollisionFree(hash) && done <= Heads(files) && k in Heads(files) && k !in done
    ensures PutAll(hash, PutAll(hash, objects, ObjectsUnder(hash, files, done)), EntryObjects(hash, files, k))
         == PutAll(hash, objects, ObjectsUnder(hash, files, done + {k}))
  {
    PutAllTwice(hash, objects, ObjectsUnder(hash, files, done), EntryObjects(hash, files, k));
    UnderSplits(hash, files, done + {k}, k);
    assert done + {k} - {k} == done;
  }

  ghost function DirKeys(ds: set<string>): set<string> {
    set d | d in ds :: d + "/"
  }

  lemma DirKeysLess(ks: set<string>, ds: set<string>, d: string)
    requires d in ds && DirKeys(ds) <= ks
    ensures d + "/" in DirKeys(ds) && DirKeys(ds - {d}) <= ks
    ensures ks - DirKeys(ds) + {d + "/"} == ks - DirKeys(ds - {d})
  {
    assert DirKeys(ds) == DirKeys(ds - {d}) + {d + "/"};
    forall e | e in ds - {d}
      ensures e + "/" != d + "/"
    {
      SlashCancel(e, d);
    }
  }

  lemma HeadsAreFilesAndDirs(files: Files, rootFiles: Files, subdirs: map<string, Files>)
    requires FilesSplit(files, rootFiles) && DirsSplit(files, subdirs)
    ensures Heads(files) - DirKeys(subdirs.Keys) == rootFiles.Keys
    ensures DirKeys(subdirs.Keys) <= Heads(files)
  {
    forall k | k in Heads(files) && IsDirKey(k)
      ensures k in DirKeys(subdirs.Keys)
    {
      DirName(k);
      assert k[..|k| - 1] in subdirs;
    }
    forall d
      ensures IsDirKey(d + "/")
    {
      EndsInSlash(d);
    }
  }

  /**
   * buildTree. The three map loops run in an arbitrary order and the sort is not
   * required to be stable, yet the result is one function of the file map, Encode's
   * order check never fails, and exactly the objects of the tree are added.
   */
  method BuildTree(s: Storage, files: Files) returns (r: Result<Sha>)
    requires CollisionFree(s.hash)
    modifies s`objects
    ensures r == Ok(RootHash(s.hash, files))
    ensures s.objects == PutAll(s.hash, old(s.objects), ObjectsOf(s.hash, files))
    decreases LongestPath(files.Keys)
  {
    var rootFiles, subdirs := Split(files);
    HeadsAreFilesAndDirs(files, rootFiles, subdirs);
    var es, ks := WriteFiles(s, files, rootFiles);
    ghost var done := rootFiles.Keys;
    var todo := subdirs.Keys;
    while todo != {}
      invariant todo <= subdirs.Keys && DirKeys(todo) <= Heads(files)
      invariant done == Heads(files) - DirKeys(todo)
      invariant Gathered(s.hash, files, es, ks, done)
      invariant s.objects == PutAll(s.hash, old(s.objects), ObjectsUnder(s.hash, files, done))
    {
      var dir :| dir in todo;
      DirKeysLess(Heads(files), todo, dir);
      EndsInSlash(dir);
      BelowShrinks(files, dir + "/");
      var sub := BuildTree(s, subdirs[dir]);
      if sub.Err? { return sub; }
      PutOneMore(s.hash, old(s.objects), files, done, dir + "/");
      GatherOne(s.hash, files, es, ks, done, dir + "/", TreeEntry(dir, Dir, sub.value));
      es, ks := es + [TreeEntry(dir, Dir, sub.value)], ks + [dir + "/"];
      done := done + {dir + "/"};
      todo := todo - {dir};
    }
    assert DirKeys(todo) == {} && done == Heads(files);
    r := WriteRoot(s, files, es, ks, old(s.objects));
  }

  /** The sort and the root tree object. */
  method WriteRoot(s: Storage, ghost files: Files, es: seq<TreeEntry>, ghost ks: seq<string>,
                   ghost before: map<Sha, Object>)
    returns (r: Result<Sha>)
    requires CollisionFree(s.hash) && Gathered(s.hash, files, es, ks, Heads(files))
    requires s.objects == PutAll(s.hash, before, ObjectsUnder(s.hash, files, Heads(files)))
    modifies s`objects
    ensures r == Ok(RootHash(s.hash, files))
    ensures s.objects == PutAll(s.hash, before, ObjectsOf(s.hash, files))
  {
    EntryLessIsStrictWeak();
    var sorted, perm := Sort(es, EntryLess);
    SortedIsInGitOrder(es, sorted, perm);
    SortedEntriesAreTheTree(s.hash, files, es, ks, sorted, perm);
    PutRoot(s.hash, before, files);
    r := WriteTree(s, sorted);
  }

  lemma PutRoot(hash: Object -> Sha, objects: map<Sha, Object>, files: Files)
    requires CollisionFree(hash)
    ensures PutAll(hash, objects, ObjectsUnder(hash, files, Heads(files)))[RootHash(hash, files) := TreeOf(hash, files)]
         == PutAll(hash, objects, ObjectsOf(hash, files))
  {
    PutAllOne(hash, objects, ObjectsUnder(hash, files, Heads(files)), TreeOf(hash, files));
    assert ObjectsUnder(hash, files, Heads(files)) + {TreeOf(hash, files)} == ObjectsOf(hash, files);
  }

  // ----- buildCommit -----

  ghost function CommitOf(hash: Object -> Sha, parent: Option<Sha>, files: Files, message: string, when: Time): Object {
    Commit(RootHash(hash, files), if parent.Some? then [parent.value] else [], message, Seconds(when))
  }

  ghost function CommitObjects(hash: Object -> Sha, parent: Option<Sha>, files: Files, message: string, when: Time)
    : set<Object>
  {
    ObjectsOf(hash, files) + {CommitOf(hash, parent, files, message, when)}
  }

  /** buildCommit; a parent of None is the empty parent SHA of the initial commit. */
  method BuildCommit(s: Storage, parent: Option<Sha>, files: Files, message: string, when: Time)
    returns (r: Result<Sha>)
    requires CollisionFree(s.hash)
    modifies s`objects
    ensures r == Ok(s.hash(CommitOf(s.hash, parent, files, message, when)))
    ensures s.objects == PutAll(s.hash, old(s.objects), CommitObjects(s.hash, parent, files, message, when))
  {
    var tree := BuildTree(s, files);
    if tree.Err? { return tree; }
    var c := Commit(tree.value, if parent.Some? then [parent.value] else [], message, Seconds(when));
    var h := s.SetObject(c);
    PutAllOne(s.hash, old(s.objects), ObjectsOf(s.hash, files), c);
    return Ok(h);
  }

  lemma PutCommitStores(hash: Object -> Sha, objects: map<Sha, Object>, parent: Option<Sha>, files: Files,
                        message: string, when: Time)
    requires CollisionFree(hash)
    ensures var objects' := PutAll(hash, objects, CommitObjects(hash, parent, files, message, when));
            Holds(hash, objects', CommitOf(hash, parent, files, message, when)) && Stored(hash, objects', files)
  {
  }

  lemma CommitReferences(hash: Object -> Sha, parent: Option<Sha>, files: Files, message: string, when: Time)
    ensures References(CommitOf(hash, parent, files, message, when))
         == {RootHash(hash, files)} + if parent.Some? then {parent.value} else {}
  {
  }

  /** A commit whose parent is present keeps the store closed and acyclic. */
  lemma PutCommitKeepsWellFounded(hash: Object -> Sha, objects: map<Sha, Object>, parent: Option<Sha>, files: Files,
                                  message: string, when: Time)
    requires CollisionFree(hash) && WellFounded(hash, objects)
    requires parent.Some? ==> parent.value in objects
    ensures WellFounded(hash, PutAll(hash, objects, CommitObjects(hash, parent, files, message, when)))
  {
    var c := CommitOf(hash, parent, files, message, when);
    var objects' := PutAll(hash, objects, ObjectsOf(hash, files));
    PutTreeKeepsWellFounded(hash, objects, files);
    assert TreeOf(hash, files) in ObjectsOf(hash, files);
    CommitReferences(hash, parent, files, message, when);
    PutKeepsWellFounded(hash, objects', c);
    PutAllOne(hash, objects, ObjectsOf(hash, files), c);
  }
}
