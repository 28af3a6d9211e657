// Reading a tree back: the depth-first walk of stored tree objects.
module TreeWalk {
  import opened Text
  import opened Objects
  import opened TreeSpec

  type Listing = seq<(string, Content)>

  /** The walk from tree `h`, at most `depth` trees deep; None when an object is missing or of the wrong kind. */
  function Walk(objects: map<Sha, Object>, h: Sha, depth: nat): Option<Listing>
    decreases depth, 0, 0
  {
    if depth == 0 || h !in objects || !objects[h].Tree? then None
    else WalkEntries(objects, objects[h].entries, depth - 1)
  }

  function WalkEntries(objects: map<Sha, Object>, es: seq<TreeEntry>, depth: nat): Option<Listing>
    decreases depth, 2, |es|
  {
    if es == [] then Some([])
    else
      var first, rest := WalkEntry(objects, es[0], depth), WalkEntries(objects, es[1..], depth);
      if first.Some? && rest.Some? then Some(first.value + rest.value) else None
  }

  function WalkEntry(objects: map<Sha, Object>, e: TreeEntry, depth: nat): Option<Listing>
    decreases depth, 1, 0
  {
    if e.mode == Dir then
      var sub := Walk(objects, e.hash, depth);
      if sub.Some? then Some(Prefixed(e.name + "/", sub.value)) else None
    else if e.hash in objects && objects[e.hash].Blob? then
      Some([(e.name, objects[e.hash].content)])
    else
      None
  }

  function Prefixed(dir: string, l: Listing): (r: Listing) {
    seq(|l|, i requires 0 <= i < |l| => (dir + l[i].0, l[i].1))
  }

  function Paths(l: Listing): seq<string> {
    seq(|l|, i requires 0 <= i < |l| => l[i].0)
  }

  /** A file map in ascending byte order of its full paths. */
  ghost function ListingOf(files: Files): Listing {
    var ps := SortedKeys(files.Keys);
    seq(|ps|, i requires 0 <= i < |ps| => assert ps[i] in ps; (ps[i], files[ps[i]]))
  }

  /** The listing is in byte order of the paths. */
  lemma ListedInByteOrder(files: Files, i: nat, j: nat)
    requires i < j < |ListingOf(files)|
    ensures var a, b := ListingOf(files)[i].0, ListingOf(files)[j].0;
            exists n: nat :: n <= |a| && n < |b| && a[..n] == b[..n] && (n == |a| || a[n] < b[n])
  {
    LessIff(ListingOf(files)[i].0, ListingOf(files)[j].0);
  }

  /** The listing holds every file with its content, and nothing else. */
  lemma ListedIff(files: Files, p: string, c: Content)
    ensures (p, c) in ListingOf(files) <==> p in files && files[p] == c
  {
    var ps := SortedKeys(files.Keys);
    if p in files {
      var i :| 0 <= i < |ps| && ps[i] == p;
      assert ListingOf(files)[i] == (p, files[p]);
    }
  }

  /** `l` lists, in ascending path order, exactly the files whose head is in `ks`. */
  ghost predicate Lists(l: Listing, files: Files, ks: seq<string>) {
    Ascending(Paths(l)) && OnlyFiles(l, files, ks) && Complete(l, files, ks)
  }

  ghost predicate OnlyFiles(l: Listing, files: Files, ks: seq<string>) {
    forall i :: 0 <= i < |l| ==> l[i].0 in files && files[l[i].0] == l[i].1 && Head(l[i].0) in ks
  }

  ghost predicate Complete(l: Listing, files: Files, ks: seq<string>) {
    forall p :: p in files && Head(p) in ks ==> p in Paths(l)
  }

  /**
   * The round trip: walking the stored tree gives back the file map, with no
   * condition on the paths, and in strictly ascending byte order of full paths.
   */
  lemma {:induction false} WalkReadsBack(hash: Object -> Sha, objects: map<Sha, Object>, files: Files, depth: nat)
    requires Stored(hash, objects, files) && depth > LongestPath(files.Keys)
    ensures Walk(objects, RootHash(hash, files), depth) == Some(ListingOf(files))
    decreases LongestPath(files.Keys), 3, 0
  {
    var es := WalkAll(hash, objects, files, depth - 1);
    WalkOpens(objects, RootHash(hash, files), es, ListingOf(files), depth);
  }

  /** From file map to tree and back, into whatever the store held before. */
  lemma {:induction false} BuiltTreeReadsBack(hash: Object -> Sha, objects: map<Sha, Object>, files: Files, depth: nat)
    requires CollisionFree(hash) && depth > LongestPath(files.Keys)
    ensures Walk(PutAll(hash, objects, ObjectsOf(hash, files)), RootHash(hash, files), depth) == Some(ListingOf(files))
  {
    PutTreeStores(hash, objects, files);
    WalkReadsBack(hash, PutAll(hash, objects, ObjectsOf(hash, files)), files, depth);
  }

  lemma WalkOpens(objects: map<Sha, Object>, root: Sha, es: seq<TreeEntry>, l: Listing, depth: nat)
    requires root in objects && objects[root] == Tree(es) && depth > 0
    requires WalkEntries(objects, es, depth - 1) == Some(l)
    ensures Walk(objects, root, depth) == Some(l)
  {
  }

  lemma {:induction false} WalkAll(hash: Object -> Sha, objects: map<Sha, Object>, files: Files, depth: nat)
    returns (es: seq<TreeEntry>)
    requires Stored(hash, objects, files) && depth >= LongestPath(files.Keys)
    ensures RootHash(hash, files) in objects && objects[RootHash(hash, files)] == Tree(es)
    ensures WalkEntries(objects, es, depth) == Some(ListingOf(files))
    decreases LongestPath(files.Keys), 2, 0
  {
    var ks;
    es, ks := EntriesOf(hash, files);
    var l := WalkSuffix(hash, objects, files, depth, es, ks);
    ListsAll(l, files, ks);
    assert TreeOf(hash, files) in ObjectsOf(hash, files);
    assert Holds(hash, objects, TreeOf(hash, files));
  }

  lemma ListsAll(l: Listing, files: Files, ks: seq<string>)
    requires Lists(l, files, ks) && forall k :: k in Heads(files) ==> k in ks
    ensures l == ListingOf(files)
  {
    var ps := SortedKeys(files.Keys);
    forall p
      ensures p in Paths(l) <==> p in ps
    {
      if p in files { assert Head(p) in Heads(files); }
      if p in Paths(l) {
        var i :| 0 <= i < |l| && Paths(l)[i] == p;
        assert l[i].0 == p;
      }
    }
    AscendingUnique(Paths(l), ps);
    forall i | 0 <= i < |l|
      ensures l[i] == ListingOf(files)[i]
    {
      assert Paths(l)[i] == ps[i];
    }
  }

  lemma EntriesOf(hash: Object -> Sha, files: Files) returns (es: seq<TreeEntry>, ks: seq<string>)
    ensures TreeOf(hash, files) == Tree(es) && EntriesFor(hash, files, es, ks)
    ensures Ascending(ks) && forall k :: k in Heads(files) ==> k in ks
  {
    es := TreeOf(hash, files).entries;
    ks := SortedKeys(Heads(files));
    assert forall i :: 0 <= i < |ks| ==> ks[i] in ks;
  }

  lemma {:induction false} WalkSuffix(hash: Object -> Sha, objects: map<Sha, Object>, files: Files, depth: nat,
                                      es: seq<TreeEntry>, ks: seq<string>)
    returns (l: Listing)
    requires Stored(hash, objects, files) && depth >= LongestPath(files.Keys)
    requires EntriesFor(hash, files, es, ks) && Ascending(ks)
    ensures WalkEntries(objects, es, depth) == Some(l)
    ensures Lists(l, files, ks)
    decreases LongestPath(files.Keys), 1, |ks|
  {
    if ks == [] {
      l := [];
    } else {
      AscendingTail(ks);
      assert EntriesFor(hash, files, es[1..], ks[1..]);
      var first := WalkOne(hash, objects, files, depth, ks[0]);
      var rest := WalkSuffix(hash, objects, files, depth, es[1..], ks[1..]);
      l := first + rest;
      Concatenate(first, rest, files, ks);
    }
  }

  lemma {:induction false} WalkOne(hash: Object -> Sha, objects: map<Sha, Object>, files: Files, depth: nat, k: string)
    returns (l: Listing)
    requires Stored(hash, objects, files) && depth >= LongestPath(files.Keys)
    requires k in Heads(files)
    ensures WalkEntry(objects, EntryOf(hash, files, k), depth) == Some(l)
    ensures Lists(l, files, [k])
    decreases LongestPath(files.Keys), 0, 0
  {
    StoredEntry(hash, objects, files, k);
    if IsDirKey(k) {
      BelowShrinks(files, k);
      WalkReadsBack(hash, objects, Below(files, k), depth);
      DirName(k);
      l := Prefixed(k, ListingOf(Below(files, k)));
      PrefixedAscends(files, k);
      PrefixedIsOnlyFiles(files, k);
      PrefixedIsComplete(files, k);
    } else {
      HeadOfKey(files, k);
      l := [(k, files[k])];
      FileLists(files, k);
    }
  }

  lemma FileLists(files: Files, k: string)
    requires k in Heads(files) && !IsDirKey(k) && k in files
    ensures Lists([(k, files[k])], files, [k])
  {
    var q :| q in files && Head(q) == k;
    HeadOf(q);
    forall p | p in files && Head(p) in [k]
      ensures p in Paths([(k, files[k])])
    {
      HeadOf(p);
      assert Paths([(k, files[k])])[0] == p;
    }
  }

  lemma PrefixedAscends(files: Files, k: string)
    ensures Ascending(Paths(Prefixed(k, ListingOf(Below(files, k)))))
  {
    var ps := SortedKeys(Below(files, k).Keys);
    var qs := Paths(Prefixed(k, ListingOf(Below(files, k))));
    forall i, j | 0 <= i < j < |qs|
      ensures Less(qs[i], qs[j])
    {
      assert Less(ps[i], ps[j]);
      LessCommonPrefix(k, ps[i], ps[j]);
    }
  }

  lemma PrefixedIsOnlyFiles(files: Files, k: string)
    ensures OnlyFiles(Prefixed(k, ListingOf(Below(files, k))), files, [k])
  {
    var ps := SortedKeys(Below(files, k).Keys);
    var l := Prefixed(k, ListingOf(Below(files, k)));
    forall i | 0 <= i < |l|
      ensures l[i].0 in files && files[l[i].0] == l[i].1 && Head(l[i].0) in [k]
    {
      assert ps[i] in ps;
      assert ps[i] in Below(files, k);
    }
  }

  lemma PrefixedIsComplete(files: Files, k: string)
    ensures Complete(Prefixed(k, ListingOf(Below(files, k))), files, [k])
  {
    forall p | p in files && Head(p) in [k]
      ensures p in Paths(Prefixed(k, ListingOf(Below(files, k))))
    {
      assert p == k + p[|k|..];
      PrefixedHas(k, Below(files, k), p[|k|..]);
    }
  }

  lemma PrefixedHas(k: string, sub: Files, r: string)
    requires r in sub
    ensures k + r in Paths(Prefixed(k, ListingOf(sub)))
  {
    var ps := SortedKeys(sub.Keys);
    assert r in ps;
    var i :| 0 <= i < |ps| && ps[i] == r;
    assert Paths(Prefixed(k, ListingOf(sub)))[i] == k + r;
  }

  lemma Concatenate(first: Listing, rest: Listing, files: Files, ks: seq<string>)
    requires ks != [] && Ascending(ks)
    requires Lists(first, files, [ks[0]]) && Lists(rest, files, ks[1..])
    ensures Lists(first + rest, files, ks)
  {
    PathsConcatenate(first, rest);
    ConcatenationAscends(first, rest, files, ks);
    ConcatenationIsOnlyFiles(first, rest, files, ks);
    ConcatenationIsComplete(first, rest, files, ks);
  }

  lemma PathsConcatenate(first: Listing, rest: Listing)
    ensures Paths(first + rest) == Paths(first) + Paths(rest)
  {
  }

  lemma ConcatenationAscends(first: Listing, rest: Listing, files: Files, ks: seq<string>)
    requires ks != [] && Ascending(ks)
    requires OnlyFiles(first, files, [ks[0]]) && OnlyFiles(rest, files, ks[1..])
    requires Ascending(Paths(first)) && Ascending(Paths(rest))
    ensures Ascending(Paths(first) + Paths(rest))
  {
    AscendingTail(ks);
    forall x, y | x in Paths(first) && y in Paths(rest)
      ensures Less(x, y)
    {
      var i :| 0 <= i < |first| && Paths(first)[i] == x;
      var j :| 0 <= j < |rest| && Paths(rest)[j] == y;
      assert Head(first[i].0) == ks[0] && Head(rest[j].0) in ks[1..];
      HeadsOrderPaths(x, y);
    }
    AscendingConcatenation(Paths(first), Paths(rest));
  }

  lemma ConcatenationIsOnlyFiles(first: Listing, rest: Listing, files: Files, ks: seq<string>)
    requires ks != []
    requires OnlyFiles(first, files, [ks[0]]) && OnlyFiles(rest, files, ks[1..])
    ensures OnlyFiles(first + rest, files, ks)
  {
  }

  lemma ConcatenationIsComplete(first: Listing, rest: Listing, files: Files, ks: seq<string>)
    requires ks != []
    requires Complete(first, files, [ks[0]]) && Complete(rest, files, ks[1..])
    ensures Complete(first + rest, files, ks)
  {
    PathsConcatenate(first, rest);
    forall p | p in files && Head(p) in ks
      ensures p in Paths(first + rest)
    {
      assert ks == [ks[0]] + ks[1..];
      assert Head(p) in [ks[0]] || Head(p) in ks[1..];
    }
  }

  // ----- trees read by entry name alone -----

  /** No path is a directory of another. */
  ghost predicate PrefixFree(files: Files) {
    forall p, q :: p in files && q in files ==> !(p + "/" <= q)
  }

  /** No two entries of any directory share a name, as git requires of a valid tree. */
  ghost predicate UniqueNames(files: Files)
    decreases LongestPath(files.Keys)
  {
    && (forall k :: k in Heads(files) && IsDirKey(k) ==> k[..|k| - 1] !in Heads(files))
    && (forall k :: k in Heads(files) && IsDirKey(k) ==>
          (BelowShrinks(files, k); UniqueNames(Below(files, k))))
  }

  /** Looking entries up by name is unambiguous exactly for prefix-free file maps. */
  lemma {:induction false} NamesUniqueIffPrefixFree(files: Files)
    ensures UniqueNames(files) <==> PrefixFree(files)
    decreases LongestPath(files.Keys)
  {
    if PrefixFree(files) {
      forall k | k in Heads(files) && IsDirKey(k)
        ensures k[..|k| - 1] !in Heads(files) && UniqueNames(Below(files, k))
      {
        BelowShrinks(files, k);
        BelowKeepsPrefixFree(files, k);
        NamesUniqueIffPrefixFree(Below(files, k));
        DirectoryIsNoFile(files, k);
      }
    } else {
      var p, q :| p in files && q in files && p + "/" <= q;
      ClashSurfaces(files, p, q);
    }
  }

  lemma BelowKeepsPrefixFree(files: Files, k: string)
    requires PrefixFree(files)
    ensures PrefixFree(Below(files, k))
  {
    forall p, q | p in Below(files, k) && q in Below(files, k)
      ensures !(p + "/" <= q)
    {
      PairStaysFree(files, k, p, q);
    }
  }

  lemma PairStaysFree(files: Files, k: string, p: string, q: string)
    requires PrefixFree(files) && p in Below(files, k) && q in Below(files, k)
    ensures !(p + "/" <= q)
  {
    assert k + p in files && k + q in files;
    assert k + (p + "/") == (k + p) + "/";
    if p + "/" <= q { PrefixUnder(k, p + "/", q); }
  }

  lemma PrefixUnder(k: string, p: string, q: string)
    requires p <= q
    ensures k + p <= k + q
  {
  }

  lemma DirectoryIsNoFile(files: Files, k: string)
    requires PrefixFree(files) && k in Heads(files) && IsDirKey(k)
    ensures k[..|k| - 1] !in Heads(files)
  {
  }

  lemma {:induction false} ClashSurfaces(files: Files, p: string, q: string)
    requires p in files && q in files && p + "/" <= q
    ensures !UniqueNames(files)
    decreases |p|
  {
    var k := Head(q);
    assert k in Heads(files);
    if '/' in p {
      SameFirstSlash(p, q);
      BelowShrinks(files, k);
      var r, s := Cut(k, p, q);
      ClashSurfaces(Below(files, k), r, s);
    } else {
      assert (p + "/")[|p|] == '/';
      SameFirstSlash(p + "/", q);
      FirstSlashLast(p);
      SlashFree(p);
      assert Head(p) in Heads(files);
      assert k[..|k| - 1] == p;
    }
  }

  lemma Cut(k: string, p: string, q: string) returns (r: string, s: string)
    requires k <= p && p + "/" <= q
    ensures p == k + r && q == k + s && r + "/" <= s
  {
    r, s := p[|k|..], q[|k|..];
    assert forall i :: 0 <= i < |r| ==> s[i] == q[|k| + i] == (p + "/")[|k| + i] == r[i];
    assert s[|r|] == q[|p|] == (p + "/")[|p|];
  }

  lemma FirstSlashLast(p: string)
    requires '/' !in p
    ensures Head(p + "/") == p + "/"
  {
  }

  lemma SameFirstSlash(p: string, q: string)
    requires '/' in p && p <= q
    ensures Head(q) == Head(p) && IsDirKey(Head(p))
  {
  }
}
