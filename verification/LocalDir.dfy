// core.LocalDirContent: the files of a directory tree as a file map.
module LocalDir {
  import opened Text
  import opened Objects
  import opened TreeSpec
  import opened TreeWalk

  /** Unreadable is a file whose contents cannot be read; a directory may refuse to be listed. */
  datatype Node =
    | File(content: Content)
    | Unreadable
    | Symlink
    | Directory(children: map<string, Node>, readable: bool)

  const GIT := ".git"

  /** Directory entries have names: not empty and without slashes. */
  ghost predicate WellNamed(n: Node) {
    n.Directory? ==> forall c :: c in n.children ==> c != "" && '/' !in c && WellNamed(n.children[c])
  }

  /** Looking a path up, name by name: only through directories, never through anything called .git. */
  function Lookup(n: Node, p: string): Option<Content>
    decreases |p|
  {
    var i := IndexOf(p, '/');
    if !n.Directory? || p[..i] == GIT || p[..i] !in n.children then None
    else
      var c := n.children[p[..i]];
      if i < |p| then Lookup(c, p[i + 1..]) else if c.File? then Some(c.content) else None
  }

  /** Something that has to be read cannot be. */
  ghost predicate Fails(n: Node) {
    match n
    case File(_) => false
    case Unreadable => true
    case Symlink => false
    case Directory(children, readable) =>
      !readable || exists c :: c in children && c != GIT && Fails(children[c])
  }

  /** What a sequence of names leads to, through directories. */
  function NodeAt(n: Node, names: seq<string>): Option<Node> {
    if names == [] then Some(n)
    else if n.Directory? && names[0] in n.children then NodeAt(n.children[names[0]], names[1..])
    else None
  }

  /** Names that avoid .git lead to a file that cannot be read or a directory that cannot be listed. */
  ghost predicate LeadsToUnreadable(n: Node, names: seq<string>) {
    && GIT !in names
    && match NodeAt(n, names)
       case Some(Unreadable) => true
       case Some(Directory(_, readable)) => !readable
       case _ => false
  }

  /** A walk fails exactly when there is such a place. */
  lemma {:induction false} FailsIff(n: Node)
    ensures Fails(n) <==> exists names :: LeadsToUnreadable(n, names)
    decreases n
  {
    if n.Unreadable? || (n.Directory? && !n.readable) {
      assert LeadsToUnreadable(n, []);
    } else if n.Directory? {
      if c :| c in n.children && c != GIT && Fails(n.children[c]) {
        FailsIff(n.children[c]);
        var names :| LeadsToUnreadable(n.children[c], names);
        assert ([c] + names)[1..] == names;
        assert LeadsToUnreadable(n, [c] + names);
      }
      if names :| LeadsToUnreadable(n, names) {
        assert names != [] && names[0] in names;
        assert LeadsToUnreadable(n.children[names[0]], names[1..]);
        FailsIff(n.children[names[0]]);
      }
    }
  }

  /** A tree of readable files, symbolic links and directories that can be listed never fails. */
  lemma ReadableNeverFails(n: Node)
    requires forall names :: NodeAt(n, names).Some? ==>
               var m := NodeAt(n, names).value; m.File? || m.Symlink? || (m.Directory? && m.readable)
    ensures !Fails(n)
  {
    FailsIff(n);
  }

  /** The names joined by slashes. */
  function Joined(names: seq<string>): string {
    if names == [] then ""
    else if |names| == 1 then names[0]
    else names[0] + "/" + Joined(names[1..])
  }

  /** Names that avoid .git, joined to `p`, lead to a file with that content. */
  ghost predicate LeadsToFile(n: Node, names: seq<string>, p: string, content: Content) {
    names != [] && GIT !in names && Joined(names) == p && NodeAt(n, names) == Some(File(content))
  }

  /** A lookup reaches a file exactly when there are such names. */
  lemma LookupIff(n: Node, p: string, content: Content)
    requires WellNamed(n)
    ensures Lookup(n, p) == Some(content) <==> exists names :: LeadsToFile(n, names, p, content)
  {
    if Lookup(n, p) == Some(content) { var names := NamesOf(n, p, content); }
    if names :| LeadsToFile(n, names, p, content) { NamesAreLookedUp(n, names, p, content); }
  }

  lemma {:induction false} NamesOf(n: Node, p: string, content: Content) returns (names: seq<string>)
    requires Lookup(n, p) == Some(content)
    ensures LeadsToFile(n, names, p, content)
    decreases |p|
  {
    hide LeadsToFile;
    var i := IndexOf(p, '/');
    var name, c := p[..i], n.children[p[..i]];
    if i < |p| {
      var rest := NamesOf(c, p[i + 1..], content);
      names := [name] + rest;
      assert p == name + "/" + p[i + 1..];
      OneNameMore(n, name, rest, p[i + 1..], content);
    } else {
      names := [p];
      assert name == p;
      OneName(n, p, content);
    }
  }

  lemma OneName(n: Node, name: string, content: Content)
    requires n.Directory? && name in n.children && name != GIT && n.children[name] == File(content)
    ensures LeadsToFile(n, [name], name, content)
  {
    assert [name][1..] == [];
  }

  lemma OneNameMore(n: Node, name: string, rest: seq<string>, q: string, content: Content)
    requires n.Directory? && name in n.children && name != GIT && LeadsToFile(n.children[name], rest, q, content)
    ensures LeadsToFile(n, [name] + rest, name + "/" + q, content)
  {
    assert ([name] + rest)[1..] == rest;
  }

  lemma {:induction false} NamesAreLookedUp(n: Node, names: seq<string>, p: string, content: Content)
    requires WellNamed(n) && LeadsToFile(n, names, p, content)
    ensures Lookup(n, p) == Some(content)
    decreases |names|
  {
    var name := names[0];
    assert name in names;
    if |names| > 1 {
      var rest := Joined(names[1..]);
      NamesAreLookedUp(n.children[name], names[1..], rest, content);
      FirstNameIs(p, name);
      assert p[|name| + 1..] == rest;
    } else {
      assert names == [name] && p == name && '/' !in p && p[..IndexOf(p, '/')] == p;
      assert NodeAt(n.children[name], names[1..]) == Some(File(content));
    }
  }

  /** The file that path `p`, behind `prefix`, names below `n`. */
  function Found(prefix: string, n: Node, p: string): Option<Content> {
    if prefix <= p then Lookup(n, p[|prefix|..]) else None
  }

  /** The first name of `p` behind `prefix`. */
  function First(prefix: string, p: string): string {
    if prefix <= p then p[|prefix|..][..IndexOf(p[|prefix|..], '/')] else ""
  }

  /** `out'` is `out` with every file below `n` that the names in `done` lead to. */
  ghost predicate Adds(out: Files, out': Files, prefix: string, n: Node, done: set<string>) {
    && (forall p :: p in out' <==> p in out || IsFound(prefix, n, done, p))
    && (forall p :: p in out' ==> out'[p] == if IsFound(prefix, n, done, p) then Found(prefix, n, p).value else out[p])
  }

  predicate IsFound(prefix: string, n: Node, done: set<string>, p: string) {
    Found(prefix, n, p).Some? && First(prefix, p) in done
  }

  lemma AddsInTurn(a: Files, b: Files, c: Files, prefix: string, n: Node, done: set<string>, name: string)
    requires Adds(a, b, prefix, n, done) && Adds(b, c, prefix, n, {name})
    ensures Adds(a, c, prefix, n, done + {name})
  {
  }

  /** A path `prefix + q` whose first name behind `prefix` is `name` ends there or goes on below it. */
  lemma EndsAt(prefix: string, name: string, q: string)
    requires q == name
    ensures !(prefix + name + "/" <= prefix + q)
  {
  }

  lemma GoesOn(prefix: string, name: string, q: string)
    requires |name| < |q| && q[..|name|] == name && q[|name|] == '/'
    ensures prefix + q == prefix + name + "/" + q[|name| + 1..]
  {
  }

  lemma NamedFirst(prefix: string, name: string, p: string)
    requires '/' !in name && (p == prefix + name || prefix + name + "/" <= p)
    ensures prefix <= p && First(prefix, p) == name
  {
    var q := p[|prefix|..];
    assert p == prefix + q;
    if p == prefix + name {
      assert q == name;
    } else {
      assert p == prefix + name + "/" + p[|prefix| + |name| + 1..];
      assert q == name + "/" + p[|prefix| + |name| + 1..];
      FirstNameIs(q, name);
    }
  }

  lemma FirstNameIs(q: string, name: string)
    requires '/' !in name && name + "/" <= q
    ensures IndexOf(q, '/') == |name| && q[..|name|] == name
  {
    assert q[..|name|] == name && q[|name|] == '/' && q[|name|] in q;
    IndexOfIsFirst(q, '/', |name|);
    assert forall j :: 0 <= j < |name| ==> q[j] == name[j] && name[j] in name;
  }

  /** A path below `n` goes through its first name. */
  lemma FoundThrough(prefix: string, n: Node, name: string, p: string)
    requires WellNamed(n) && n.Directory? && name in n.children
    ensures IsFound(prefix, n, {name}, p) <==> name != GIT && FoundAt(prefix + name, n.children[name], p).Some?
    ensures IsFound(prefix, n, {name}, p) ==> Found(prefix, n, p) == FoundAt(prefix + name, n.children[name], p)
  {
    if p == prefix + name || prefix + name + "/" <= p { NamedFirst(prefix, name, p); }
    if prefix <= p && First(prefix, p) == name {
      assert p == prefix + p[|prefix|..];
      LookupThrough(prefix, n, name, p[|prefix|..]);
    }
  }

  lemma LookupThrough(prefix: string, n: Node, name: string, q: string)
    requires '/' !in name && q[..IndexOf(q, '/')] == name && n.Directory? && name in n.children
    ensures Lookup(n, q) == if name == GIT then None else FoundAt(prefix + name, n.children[name], prefix + q)
  {
    if IndexOf(q, '/') == |q| {
      EndsAt(prefix, name, q);
    } else {
      GoesOn(prefix, name, q);
      assert (prefix + q)[|prefix + name + "/"|..] == q[|name| + 1..];
    }
  }

  /** What the node at `path` contributes at `p`. */
  function FoundAt(path: string, n: Node, p: string): Option<Content> {
    match n
    case File(content) => if p == path then Some(content) else None
    case Directory(_, _) => Found(path + "/", n, p)
    case _ => None
  }

  // ----- the walk -----

  /** The files below a directory, each visited name adding its own. */
  method WalkChildren(prefix: string, n: Node, out: Files) returns (out': Files, ok: bool)
    requires n.Directory? && n.readable && WellNamed(n)
    ensures ok <==> !Fails(n)
    ensures ok ==> Adds(out, out', prefix, n, n.children.Keys)
    decreases n, 1
  {
    out', ok := out, true;
    var todo := n.children.Keys;
    while todo != {}
      invariant todo <= n.children.Keys
      invariant Adds(out, out', prefix, n, n.children.Keys - todo)
      invariant forall c :: c in n.children.Keys - todo && c != GIT ==> !Fails(n.children[c])
    {
      var name :| name in todo;
      ghost var before := out';
      out', ok := Visit(prefix, n, name, out');
      if !ok { return; }
      AddsInTurn(out, before, out', prefix, n, n.children.Keys - todo, name);
      assert n.children.Keys - todo + {name} == n.children.Keys - (todo - {name});
      todo := todo - {name};
    }
  }

  /** One entry: .git is skipped whatever it is, and so are symbolic links. */
  method Visit(prefix: string, n: Node, name: string, out: Files) returns (out': Files, ok: bool)
    requires n.Directory? && WellNamed(n) && name in n.children
    ensures ok <==> name == GIT || !Fails(n.children[name])
    ensures ok ==> Adds(out, out', prefix, n, {name})
    decreases n, 0
  {
    forall p
      ensures IsFound(prefix, n, {name}, p) <==> name != GIT && FoundAt(prefix + name, n.children[name], p).Some?
      ensures IsFound(prefix, n, {name}, p) ==> Found(prefix, n, p) == FoundAt(prefix + name, n.children[name], p)
    {
      FoundThrough(prefix, n, name, p);
    }
    if name == GIT { return out, true; }
    var c := n.children[name];
    match c
    case Directory(_, readable) =>
      if !readable { return out, false; }
      out', ok := WalkChildren(prefix + name + "/", c, out);
      if ok { AddsAll(out, out', prefix + name + "/", c); }
    case Symlink => return out, true;
    case Unreadable => return out, false;
    case File(content) => return out[prefix + name := content], true;
  }

  lemma AddsAll(out: Files, out': Files, prefix: string, n: Node)
    requires n.Directory? && Adds(out, out', prefix, n, n.children.Keys)
    ensures forall p :: p in out' <==> p in out || Found(prefix, n, p).Some?
    ensures forall p :: p in out' ==> out'[p] == if Found(prefix, n, p).Some? then Found(prefix, n, p).value else out[p]
  {
  }

  /** `files` holds exactly the files a lookup from `root` can reach. */
  ghost predicate Collects(root: Node, files: Files) {
    && (forall p :: p in files <==> Lookup(root, p).Some?)
    && (forall p :: p in files ==> Lookup(root, p) == Some(files[p]))
  }

  /** LocalDirContent.Files: None stands for a directory that does not exist. */
  method FilesOf(dir: Option<Node>) returns (r: Result<Files>)
    requires dir.Some? ==> WellNamed(dir.value)
    ensures r.Ok? <==> dir.Some? && dir.value.Directory? && !exists names :: LeadsToUnreadable(dir.value, names)
    ensures r.Ok? ==> Collects(dir.value, r.value)
  {
    if dir.None? { return Err("no such directory"); }
    var root := dir.value;
    FailsIff(root);
    if !root.Directory? { return Err("not a directory"); }
    if !root.readable { return Err("cannot be listed"); }
    var out, ok := WalkChildren("", root, map[]);
    if !ok { return Err("reading"); }
    AddsAll(map[], out, "", root);
    assert forall p: string :: p[|""|..] == p;
    return Ok(out);
  }

  // ----- what the file map is good for -----

  /** Every name on the way is a real name and none is .git. */
  ghost predicate CleanPath(p: string)
    decreases |p|
  {
    var i := IndexOf(p, '/');
    i > 0 && p[..i] != GIT && (i < |p| ==> CleanPath(p[i + 1..]))
  }

  lemma {:induction false} FoundPathsAreClean(n: Node, p: string)
    requires WellNamed(n) && Lookup(n, p).Some?
    ensures CleanPath(p)
    decreases |p|
  {
    var i := IndexOf(p, '/');
    if i < |p| { FoundPathsAreClean(n.children[p[..i]], p[i + 1..]); }
  }

  /** A file is not also a directory. */
  lemma {:induction false} NothingBelowAFile(n: Node, p: string, q: string)
    requires Lookup(n, p).Some? && p + "/" <= q
    ensures Lookup(n, q).None?
    decreases |p|
  {
    var i := IndexOf(p, '/');
    if i < |p| {
      SameFirstName(p, q, i);
      NothingBelowAFile(n.children[p[..i]], p[i + 1..], q[i + 1..]);
    } else {
      FirstNameIs(q, p);
      assert p[..i] == p && n.children[p].File?;
      assert Lookup(n, q) == Lookup(n.children[p], q[|p| + 1..]);
    }
  }

  lemma SameFirstName(p: string, q: string, i: nat)
    requires i == IndexOf(p, '/') < |p| && p + "/" <= q
    ensures IndexOf(q, '/') == i && q[..i] == p[..i] && p[i + 1..] + "/" <= q[i + 1..]
  {
    assert q[..i] == p[..i] && q[i] == '/' && q[i] in q;
    IndexOfIsFirst(q, '/', i);
    assert forall k :: 0 <= k < i ==> q[k] == p[..i][k] && p[..i][k] in p[..i];
    assert (p + "/")[i + 1..] == p[i + 1..] + "/";
    PrefixBehind(p + "/", q, i + 1);
  }

  lemma PrefixBehind(a: string, q: string, n: nat)
    requires a <= q && n <= |a|
    ensures a[n..] <= q[n..]
  {
    assert q == a + q[|a|..];
    assert q[n..] == a[n..] + q[|a|..];
  }

  /**
   * From directory to tree and back: once the tree of the collected files is stored, walking it lists exactly
   * the files a lookup can reach, each by a clean path, and no directory of the tree repeats a name.
   */
  lemma {:induction false} DirectoryReadsBack(hash: Object -> Sha, objects: map<Sha, Object>, root: Node,
                                              files: Files, depth: nat)
    requires WellNamed(root) && Collects(root, files)
    requires Stored(hash, objects, files) && depth > LongestPath(files.Keys)
    ensures var l := Walk(objects, RootHash(hash, files), depth);
            l.Some? && forall p, c :: (p, c) in l.value <==> Lookup(root, p) == Some(c)
    ensures UniqueNames(files) && forall p :: p in files ==> CleanPath(p)
  {
    WalkReadsBack(hash, objects, files, depth);
    var l := ListingOf(files);
    forall p, c
      ensures (p, c) in l <==> Lookup(root, p) == Some(c)
    {
      ListedIff(files, p, c);
    }
    forall p, q | p in files && q in files
      ensures !(p + "/" <= q)
    {
      if p + "/" <= q { NothingBelowAFile(root, p, q); }
    }
    NamesUniqueIffPrefixFree(files);
    forall p | p in files
      ensures CleanPath(p)
    {
      FoundPathsAreClean(root, p);
    }
  }
}
