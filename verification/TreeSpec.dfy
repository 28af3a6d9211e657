// What the tree of a file map is, independently of how it is built.
module TreeSpec {
  import opened Text
  import opened Objects

  // ----- splitting a path at its first slash -----

  /** The entry a path falls under: the file name, or the first directory with its slash. */
  function Head(p: string): (k: string)
    ensures k <= p
  {
    if '/' in p then p[..IndexOf(p, '/') + 1] else p
  }

  predicate IsDirKey(k: string) {
    k != "" && k[|k| - 1] == '/'
  }

  /** Git's sort key: a directory compares as if its name ended in a slash. */
  function SortKey(e: TreeEntry): string {
    if e.mode == Dir then e.name + "/" else e.name
  }

  lemma DirName(k: string)
    requires IsDirKey(k)
    ensures k[..|k| - 1] + "/" == k
  {
  }

  lemma SlashFree(d: string)
    requires '/' !in d
    ensures !IsDirKey(d) && Head(d) == d
  {
  }

  lemma HeadOf(p: string)
    ensures IsDirKey(Head(p)) <==> '/' in p
    ensures !IsDirKey(Head(p)) ==> Head(p) == p
    ensures '/' !in Head(p)[..if IsDirKey(Head(p)) then |Head(p)| - 1 else |Head(p)|]
  {
  }

  lemma SlashIsLast(p: string)
    ensures forall i :: 0 <= i < |Head(p)| - 1 ==> Head(p)[i] != '/'
  {
  }

  /** A directory key is never a proper prefix of another key, so keys order their paths. */
  lemma HeadsOrderPaths(p: string, q: string)
    requires Less(Head(p), Head(q))
    ensures Less(p, q)
  {
    var k, l := Head(p), Head(q);
    HeadOf(p);
    HeadOf(q);
    if k <= l {
      LessIrreflexive(k);
      assert |k| == |l| ==> k == l;
      SlashIsLast(q);
      assert q == k + q[|k|..];
      LessOwnExtension(k, q[|k|..]);
    } else {
      LessDiverging(k, l, p[|k|..], q[|l|..]);
      assert p == k + p[|k|..] && q == l + q[|l|..];
    }
  }

  // ----- the sub-map below one entry -----

  ghost function Heads(files: Files): set<string> {
    set p | p in files :: Head(p)
  }

  /** The files below directory key `k`, with the key cut off. */
  ghost function Below(files: Files, k: string): (sub: Files)
    ensures forall r {:trigger r in sub} :: r in sub <==> k + r in files && Head(k + r) == k
    ensures forall r {:trigger sub[r]} :: r in sub ==> sub[r] == files[k + r]
  {
    var rests := set p | p in files && Head(p) == k :: p[|k|..];
    assert forall r {:trigger r in rests} :: r in rests <==> k + r in files && Head(k + r) == k by {
      forall r | k + r in files && Head(k + r) == k
        ensures r in rests
      {
        assert (k + r)[|k|..] == r;
      }
      forall p | p in files && Head(p) == k
        ensures p == k + p[|k|..]
      {
      }
    }
    map r | r in rests :: files[k + r]
  }

  ghost function LongestPath(keys: set<string>): (n: nat)
    ensures forall p :: p in keys ==> |p| <= n
    ensures keys != {} ==> exists p :: p in keys && |p| == n
  {
    if keys == {} then 0 else
      var p :| p in keys;
      var n := LongestPath(keys - {p});
      assert keys == keys - {p} + {p};
      if |p| >= n then
        |p|
      else
        assert keys - {p} != {};
        n
  }

  lemma {:induction false} BelowShrinks(files: Files, k: string)
    requires k in Heads(files) && IsDirKey(k)
    ensures LongestPath(Below(files, k).Keys) < LongestPath(files.Keys)
    ensures Below(files, k) != map[]
  {
    var sub := Below(files, k);
    var p :| p in files && Head(p) == k;
    assert p == k + p[|k|..];
    assert p[|k|..] in sub.Keys;
    var r :| r in sub.Keys && |r| == LongestPath(sub.Keys);
    assert k + r in files.Keys;
  }

  // ----- the tree objects of a file map -----

  ghost function EntryOf(hash: Object -> Sha, files: Files, k: string): TreeEntry
    requires k in Heads(files)
    decreases LongestPath(files.Keys), 0
  {
    HeadOfKey(files, k);
    if IsDirKey(k) then
      BelowShrinks(files, k);
      TreeEntry(k[..|k| - 1], Dir, hash(TreeOf(hash, Below(files, k))))
    else
      TreeEntry(k, Regular, hash(Blob(files[k])))
  }

  lemma HeadOfKey(files: Files, k: string)
    requires k in Heads(files)
    ensures !IsDirKey(k) ==> k in files
    ensures '/' !in k[..if IsDirKey(k) then |k| - 1 else |k|]
  {
  }

  /** The root tree object of a file map: one entry per head, in ascending order of sort key. */
  ghost function TreeOf(hash: Object -> Sha, files: Files): Object
    decreases LongestPath(files.Keys), 1
  {
    var ks := SortedKeys(Heads(files));
    Tree(seq(|ks|, i requires 0 <= i < |ks| => assert ks[i] in ks; EntryOf(hash, files, ks[i])))
  }

  ghost function RootHash(hash: Object -> Sha, files: Files): Sha {
    hash(TreeOf(hash, files))
  }

  /** `es` are the entries for the heads `ks`, one for one. */
  ghost predicate EntriesFor(hash: Object -> Sha, files: Files, es: seq<TreeEntry>, ks: seq<string>) {
    && |es| == |ks|
    && forall i :: 0 <= i < |ks| ==> ks[i] in Heads(files) && es[i] == EntryOf(hash, files, ks[i])
  }

  lemma SortKeyOfEntry(hash: Object -> Sha, files: Files, k: string)
    requires k in Heads(files)
    ensures SortKey(EntryOf(hash, files, k)) == k
  {
    if IsDirKey(k) { DirName(k); }
  }

  /** The entries stand in byte order of their names, with a slash after those of directories. */
  lemma EntriesInByteOrder(hash: Object -> Sha, files: Files, i: nat, j: nat)
    requires TreeOf(hash, files).Tree? && i < j < |TreeOf(hash, files).entries|
    ensures var e, f := TreeOf(hash, files).entries[i], TreeOf(hash, files).entries[j];
            var a, b := e.name + (if e.mode == Dir then "/" else ""), f.name + (if f.mode == Dir then "/" else "");
            exists n: nat :: n <= |a| && n < |b| && a[..n] == b[..n] && (n == |a| || a[n] < b[n])
  {
    hide TreeOf, Less, Heads;
    SortedEntries(hash, files, i, j);
    var e, f := TreeOf(hash, files).entries[i], TreeOf(hash, files).entries[j];
    LessIff(e.name + (if e.mode == Dir then "/" else ""), f.name + (if f.mode == Dir then "/" else ""));
  }

  lemma SortedEntries(hash: Object -> Sha, files: Files, i: nat, j: nat)
    requires TreeOf(hash, files).Tree? && i < j < |TreeOf(hash, files).entries|
    ensures var e, f := TreeOf(hash, files).entries[i], TreeOf(hash, files).entries[j];
            Less(e.name + (if e.mode == Dir then "/" else ""), f.name + (if f.mode == Dir then "/" else ""))
  {
    hide EntryOf;
    var ks := SortedKeys(Heads(files));
    assert ks[i] in ks && ks[j] in ks;
    var e, f := TreeOf(hash, files).entries[i], TreeOf(hash, files).entries[j];
    SortKeyOfEntry(hash, files, ks[i]);
    SortKeyOfEntry(hash, files, ks[j]);
    assert e.name + "" == e.name && f.name + "" == f.name;
  }

  /** All objects of the tree: its root, its blobs and the objects of its sub-trees. */
  ghost function ObjectsOf(hash: Object -> Sha, files: Files): set<Object>
    decreases LongestPath(files.Keys), 2
  {
    {TreeOf(hash, files)} + ObjectsUnder(hash, files, Heads(files))
  }

  ghost function ObjectsUnder(hash: Object -> Sha, files: Files, ks: set<string>): set<Object>
    requires ks <= Heads(files)
    decreases LongestPath(files.Keys), 1
  {
    set k, o | k in ks && o in EntryObjects(hash, files, k) :: o
  }

  ghost function EntryObjects(hash: Object -> Sha, files: Files, k: string): set<Object>
    requires k in Heads(files)
    decreases LongestPath(files.Keys), 0
  {
    HeadOfKey(files, k);
    if IsDirKey(k) then
      BelowShrinks(files, k);
      ObjectsOf(hash, Below(files, k))
    else
      {Blob(files[k])}
  }

  ghost predicate Holds(hash: Object -> Sha, objects: map<Sha, Object>, o: Object) {
    hash(o) in objects && objects[hash(o)] == o
  }

  /** Every object of the tree is in the store. */
  ghost predicate Stored(hash: Object -> Sha, objects: map<Sha, Object>, files: Files) {
    forall o :: o in ObjectsOf(hash, files) ==> Holds(hash, objects, o)
  }

  lemma StoredEntry(hash: Object -> Sha, objects: map<Sha, Object>, files: Files, k: string)
    requires Stored(hash, objects, files) && k in Heads(files)
    ensures IsDirKey(k) ==> Stored(hash, objects, Below(files, k))
    ensures !IsDirKey(k) ==> k in files && Holds(hash, objects, Blob(files[k]))
  {
    HeadOfKey(files, k);
    assert EntryObjects(hash, files, k) <= ObjectsOf(hash, files);
  }

  lemma StoredMonotone(hash: Object -> Sha, objects: map<Sha, Object>, objects': map<Sha, Object>, files: Files)
    requires Stored(hash, objects, files) && Extends(objects, objects')
    ensures Stored(hash, objects', files)
  {
  }

  lemma PutTreeStores(hash: Object -> Sha, objects: map<Sha, Object>, files: Files)
    requires CollisionFree(hash)
    ensures Stored(hash, PutAll(hash, objects, ObjectsOf(hash, files)), files)
  {
  }

  /** Writing a whole tree leaves nothing dangling and creates no cycle. */
  lemma {:induction false} PutTreeKeepsWellFounded(hash: Object -> Sha, objects: map<Sha, Object>, files: Files)
    requires CollisionFree(hash) && WellFounded(hash, objects)
    ensures WellFounded(hash, PutAll(hash, objects, ObjectsOf(hash, files)))
    decreases LongestPath(files.Keys), 2, 0
  {
    var under := ObjectsUnder(hash, files, Heads(files));
    var t := TreeOf(hash, files);
    PutUnderKeepsWellFounded(hash, objects, files, Heads(files));
    TreeReferences(hash, files);
    forall k | k in Heads(files)
      ensures EntryOf(hash, files, k).hash in PutAll(hash, objects, under)
    {
      var o := EntryObjectIn(hash, files, k);
    }
    PutKeepsWellFounded(hash, PutAll(hash, objects, under), t);
    PutAllOne(hash, objects, under, t);
    assert under + {t} == ObjectsOf(hash, files);
  }

  lemma EntryObjectIn(hash: Object -> Sha, files: Files, k: string) returns (o: Object)
    requires k in Heads(files)
    ensures o in ObjectsUnder(hash, files, Heads(files)) && hash(o) == EntryOf(hash, files, k).hash
  {
    HeadOfKey(files, k);
    if IsDirKey(k) {
      BelowShrinks(files, k);
      o := TreeOf(hash, Below(files, k));
      assert o in ObjectsOf(hash, Below(files, k));
    } else {
      o := Blob(files[k]);
    }
    assert o in EntryObjects(hash, files, k);
  }

  lemma {:induction false} PutUnderKeepsWellFounded(hash: Object -> Sha, objects: map<Sha, Object>, files: Files,
                                                    ks: set<string>)
    requires CollisionFree(hash) && WellFounded(hash, objects) && ks <= Heads(files)
    ensures WellFounded(hash, PutAll(hash, objects, ObjectsUnder(hash, files, ks)))
    decreases LongestPath(files.Keys), 1, |ks|
  {
    if ks == {} {
      assert PutAll(hash, objects, ObjectsUnder(hash, files, ks)) == objects;
    } else {
      var k :| k in ks;
      PutUnderKeepsWellFounded(hash, objects, files, ks - {k});
      var os := ObjectsUnder(hash, files, ks - {k});
      PutEntryKeepsWellFounded(hash, PutAll(hash, objects, os), files, k);
      PutAllTwice(hash, objects, os, EntryObjects(hash, files, k));
      UnderSplits(hash, files, ks, k);
    }
  }

  lemma UnderSplits(hash: Object -> Sha, files: Files, ks: set<string>, k: string)
    requires ks <= Heads(files) && k in ks
    ensures ObjectsUnder(hash, files, ks) == ObjectsUnder(hash, files, ks - {k}) + EntryObjects(hash, files, k)
  {
  }

  lemma {:induction false} PutEntryKeepsWellFounded(hash: Object -> Sha, objects: map<Sha, Object>, files: Files,
                                                    k: string)
    requires CollisionFree(hash) && WellFounded(hash, objects) && k in Heads(files)
    ensures WellFounded(hash, PutAll(hash, objects, EntryObjects(hash, files, k)))
    decreases LongestPath(files.Keys), 0, 0
  {
    HeadOfKey(files, k);
    if IsDirKey(k) {
      BelowShrinks(files, k);
      PutTreeKeepsWellFounded(hash, objects, Below(files, k));
    } else {
      var b := Blob(files[k]);
      PutKeepsWellFounded(hash, objects, b);
      PutAllSingle(hash, objects, b);
    }
  }

  /** A tree object refers to exactly its entries, so a stored tree dangles nowhere. */
  lemma TreeReferences(hash: Object -> Sha, files: Files)
    ensures TreeOf(hash, files).Tree?
    ensures References(TreeOf(hash, files)) == set k | k in Heads(files) :: EntryOf(hash, files, k).hash
  {
    var es := TreeOf(hash, files).entries;
    var ks := SortedKeys(Heads(files));
    forall k | k in Heads(files)
      ensures EntryOf(hash, files, k) in es
    {
      assert k in ks;
      var i :| 0 <= i < |ks| && ks[i] == k;
      assert es[i] == EntryOf(hash, files, k);
    }
    forall e | e in es
      ensures exists k :: k in Heads(files) && EntryOf(hash, files, k) == e
    {
      var i :| 0 <= i < |es| && es[i] == e;
      assert ks[i] in ks;
      assert EntryOf(hash, files, ks[i]) == e;
    }
  }

  // ----- canonical form -----

  /** With a collision-free hash, equal root hashes mean equal file maps, and conversely. */
  lemma {:induction false} CanonicalHash(hash: Object -> Sha, f: Files, g: Files)
    requires CollisionFree(hash)
    ensures RootHash(hash, f) == RootHash(hash, g) <==> f == g
  {
    if RootHash(hash, f) == RootHash(hash, g) {
      SameHashSameObject(hash, TreeOf(hash, f), TreeOf(hash, g));
      forall p | p in f { SameFile(hash, f, g, p); }
      forall p | p in g { SameFile(hash, g, f, p); }
      assert f.Keys == g.Keys;
    }
  }

  lemma {:induction false} SameFile(hash: Object -> Sha, f: Files, g: Files, p: string)
    requires CollisionFree(hash)
    requires TreeOf(hash, f) == TreeOf(hash, g) && p in f
    ensures p in g && g[p] == f[p]
    decreases |p|
  {
    var k := Head(p);
    assert k in Heads(f);
    SameEntry(hash, f, g, k);
    if IsDirKey(k) {
      var r := PathBelow(f, g, p);
      SameFile(hash, Below(f, k), Below(g, k), r);
    } else {
      HeadOf(p);
    }
  }

  /** The rest of a nested path, and where it sits in the two sub-maps. */
  lemma PathBelow(f: Files, g: Files, p: string) returns (r: string)
    requires p in f && IsDirKey(Head(p))
    ensures p == Head(p) + r && |r| < |p|
    ensures r in Below(f, Head(p)) && Below(f, Head(p))[r] == f[p]
    ensures r in Below(g, Head(p)) ==> p in g && g[p] == Below(g, Head(p))[r]
  {
    r := p[|Head(p)|..];
    assert p == Head(p) + r;
  }

  lemma SameEntry(hash: Object -> Sha, f: Files, g: Files, k: string)
    requires CollisionFree(hash)
    requires TreeOf(hash, f) == TreeOf(hash, g) && k in Heads(f)
    ensures k in Heads(g) && EntryOf(hash, f, k) == EntryOf(hash, g, k)
    ensures IsDirKey(k) ==> TreeOf(hash, Below(f, k)) == TreeOf(hash, Below(g, k))
    ensures !IsDirKey(k) ==> k in f && k in g && f[k] == g[k]
  {
    var ks, ls := SortedKeys(Heads(f)), SortedKeys(Heads(g));
    assert k in ks;
    var i :| 0 <= i < |ks| && ks[i] == k;
    assert ls[i] in ls;
    var e := TreeOf(hash, f).entries[i];
    assert e == EntryOf(hash, f, k) == EntryOf(hash, g, ls[i]);
    SortKeyOfEntry(hash, f, k);
    SortKeyOfEntry(hash, g, ls[i]);
    HeadOfKey(f, k);
    HeadOfKey(g, k);
    if IsDirKey(k) {
      SameHashSameObject(hash, TreeOf(hash, Below(f, k)), TreeOf(hash, Below(g, k)));
    } else {
      SameHashSameObject(hash, Blob(f[k]), Blob(g[k]));
    }
  }
}
