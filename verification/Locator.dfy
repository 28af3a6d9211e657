// Naming a repository: clone URLs, the paths git clients ask for, and the control API's keys.
module Locator {
  import opened Text
  import opened Objects

  predicate At(s: string, i: nat, t: string) {
    i + |t| <= |s| && s[i..i + |t|] == t
  }

  ghost predicate Contains(s: string, t: string) {
    exists i: nat :: At(s, i, t)
  }

  /** strings.Index: the first place of `t` in `s` from `i` on. */
  function IndexFrom(s: string, t: string, i: nat): (r: Option<nat>)
    requires i <= |s|
    ensures r.Some? ==> i <= r.value && At(s, r.value, t) && forall j: nat :: i <= j < r.value ==> !At(s, j, t)
    ensures r.None? ==> forall j: nat :: i <= j ==> !At(s, j, t)
    decreases |s| - i
  {
    if At(s, i, t) then Some(i) else if i < |s| then IndexFrom(s, t, i + 1) else None
  }

  function TrimSlash(p: string): string {
    if p != "" && p[0] == '/' then p[1..] else p
  }

  const SUFFIX := ".git"

  /** resolveRepo's parsing: owner and name from a path of the form /owner/name.git and anything after it. */
  function Parse(urlPath: string): Option<(string, string)> {
    var path := TrimSlash(urlPath);
    match IndexFrom(path, SUFFIX, 0)
    case None => None
    case Some(idx) =>
      var repoPath := path[..idx];
      var i := IndexOf(repoPath, '/');
      if i == |repoPath| || i == 0 || i + 1 == |repoPath| then None else Some((repoPath[..i], repoPath[i + 1..]))
  }

  function FullName(owner: string, name: string): string {
    owner + "/" + name
  }

  /** The path of CloneURL, below the server's base URL. */
  function ClonePath(owner: string, name: string): string {
    "/" + FullName(owner, name) + SUFFIX
  }

  /** The clone path with anything after it is parsed back to owner and name exactly under these conditions. */
  lemma ParseRoundTripIff(owner: string, name: string, rest: string)
    ensures Parse(ClonePath(owner, name) + rest) == Some((owner, name))
       <==> owner != "" && '/' !in owner && name != "" && !Contains(FullName(owner, name), SUFFIX)
  {
    var full := FullName(owner, name);
    var path := full + SUFFIX + rest;
    assert ClonePath(owner, name) + rest == "/" + path && TrimSlash("/" + path) == path;
    FirstSuffixIff(full, rest, path);
    ParsedLength(path);
    if !Contains(full, SUFFIX) {
      assert path[..|full|] == full;
      SplitsAtFirstSlash(owner, name);
    }
  }

  /** The path of a repository, with or without the leading slash, and anything after it. */
  predicate NamesRepo(urlPath: string, owner: string, name: string, rest: string) {
    urlPath == owner + "/" + name + ".git" + rest || urlPath == "/" + owner + "/" + name + ".git" + rest
  }

  /** Exactly these paths parse: a slash-free owner, a name, .git for the first time, and anything. */
  lemma ParsesIff(urlPath: string, owner: string, name: string)
    ensures Parse(urlPath) == Some((owner, name))
       <==> owner != "" && '/' !in owner && name != "" && !Contains(owner + "/" + name, ".git")
            && exists rest :: NamesRepo(urlPath, owner, name, rest)
  {
    hide Parse, Contains;
    if Parse(urlPath) == Some((owner, name)) { var rest := ParsedRest(urlPath, owner, name); }
    if owner != "" && '/' !in owner && name != "" && !Contains(FullName(owner, name), SUFFIX) {
      if rest :| NamesRepo(urlPath, owner, name, rest) {
        Trimmed(urlPath, owner, name, rest);
        ParseRoundTripIff(owner, name, rest);
      }
    }
  }

  lemma ParsedRest(urlPath: string, owner: string, name: string) returns (rest: string)
    requires Parse(urlPath) == Some((owner, name))
    ensures NamesRepo(urlPath, owner, name, rest)
    ensures owner != "" && '/' !in owner && name != "" && !Contains(FullName(owner, name), SUFFIX)
  {
    hide Contains;
    var path := TrimSlash(urlPath);
    rest := ParsedPath(urlPath, path, owner, name);
    Regrouped(owner, name, rest);
    assert TrimSlash("/" + path) == path;
    ParseRoundTripIff(owner, name, rest);
    assert urlPath == path || urlPath == "/" + path;
  }

  lemma ParsedPath(urlPath: string, path: string, owner: string, name: string) returns (rest: string)
    requires Parse(urlPath) == Some((owner, name)) && path == TrimSlash(urlPath)
    ensures path == FullName(owner, name) + SUFFIX + rest
  {
    rest := path[IndexFrom(path, SUFFIX, 0).value + 4..];
  }

  lemma Regrouped(owner: string, name: string, rest: string)
    ensures var path := FullName(owner, name) + SUFFIX + rest;
            "/" + path == "/" + owner + "/" + name + SUFFIX + rest == ClonePath(owner, name) + rest
  {
  }

  lemma Trimmed(urlPath: string, owner: string, name: string, rest: string)
    requires NamesRepo(urlPath, owner, name, rest) && owner != "" && '/' !in owner
    ensures Parse(urlPath) == Parse(ClonePath(owner, name) + rest)
  {
    var path := FullName(owner, name) + SUFFIX + rest;
    assert path[0] == owner[0] && owner[0] in owner;
    Regrouped(owner, name, rest);
    assert TrimSlash(urlPath) == path && TrimSlash("/" + path) == path;
  }

  lemma FirstSuffixIff(full: string, rest: string, path: string)
    requires path == full + SUFFIX + rest
    ensures IndexFrom(path, SUFFIX, 0).Some?
    ensures IndexFrom(path, SUFFIX, 0).value == |full| <==> !Contains(full, SUFFIX)
  {
    assert At(path, |full|, SUFFIX);
    var idx := IndexFrom(path, SUFFIX, 0).value;
    if Contains(full, SUFFIX) {
      var j: nat :| At(full, j, SUFFIX);
      assert path[j..j + 4] == full[j..j + 4];
      assert At(path, j, SUFFIX);
    } else {
      if idx < |full| { SuffixInside(full, rest, idx); }
    }
  }

  lemma ParsedLength(path: string)
    requires IndexFrom(path, SUFFIX, 0).Some?
    ensures var r := Parse("/" + path);
            r.Some? ==> |r.value.0| + 1 + |r.value.1| == IndexFrom(path, SUFFIX, 0).value
  {
  }

  /** The suffix does not overlap itself, so before its own place it can only occur inside the full name. */
  lemma SuffixInside(full: string, rest: string, j: nat)
    requires j < |full| && At(full + SUFFIX + rest, j, SUFFIX)
    ensures Contains(full, SUFFIX)
  {
    var path := full + SUFFIX + rest;
    var s := path[j..j + 4];
    assert path[j + 1] == s[1] == 'g' && path[j + 2] == s[2] == 'i' && path[j + 3] == s[3] == 't';
    assert path[|full|] == '.';
    assert full[j..j + 4] == s;
    assert At(full, j, SUFFIX);
  }

  lemma SplitsAtFirstSlash(owner: string, name: string)
    ensures var full := FullName(owner, name); var i := IndexOf(full, '/');
            i < |full| && (full[..i] == owner && full[i + 1..] == name <==> '/' !in owner)
  {
    var full := FullName(owner, name);
    assert full[|owner|] == '/' && full[|owner|] in full;
    IndexOfIsFirst(full, '/', |owner|);
    var i := IndexOf(full, '/');
    if '/' in owner {
      var j :| 0 <= j < |owner| && owner[j] == '/';
      assert full[j] == '/';
      IndexOfIsFirst(full, '/', j);
    } else {
      assert forall k :: 0 <= k < |owner| ==> full[k] == owner[k] && owner[k] in owner;
      assert full[..|owner|] == owner && full[|owner| + 1..] == name;
    }
  }

  // ----- the simulator's own keys -----

  function RepoKey(vendor: string, owner: string, repo: string): string {
    vendor + "/" + owner + "/" + repo
  }

  /** Keys of slash-free vendors and owners never clash. */
  lemma RepoKeyInjective(v: string, o: string, n: string, v': string, o': string, n': string)
    requires '/' !in v && '/' !in o && '/' !in v' && '/' !in o'
    requires RepoKey(v, o, n) == RepoKey(v', o', n')
    ensures v == v' && o == o' && n == n'
  {
    assert RepoKey(v, o, n) == FullName(v, FullName(o, n)) && RepoKey(v', o', n') == FullName(v', FullName(o', n'));
    SplitsAtFirstSlash(v, FullName(o, n));
    SplitsAtFirstSlash(v', FullName(o', n'));
    SplitsAtFirstSlash(o, n);
    SplitsAtFirstSlash(o', n');
  }

  ghost predicate OnlyKeyOf(v: string, o: string, n: string) {
    forall v', o', n' :: RepoKey(v', o', n') == RepoKey(v, o, n) ==> v' == v && o' == o && n' == n
  }

  /** A key belongs to one repository only exactly when none of its three parts has a slash. */
  lemma RepoKeyUniqueIff(v: string, o: string, n: string)
    ensures OnlyKeyOf(v, o, n) <==> '/' !in v && '/' !in o && '/' !in n
  {
    if '/' in v {
      var a, b := Halves(v);
      assert RepoKey(a, b, o + "/" + n) == RepoKey(v, o, n);
    } else if '/' in o {
      var a, b := Halves(o);
      assert RepoKey(v, a, b + "/" + n) == RepoKey(v, o, n);
    } else if '/' in n {
      var a, b := Halves(n);
      assert RepoKey(v, o + "/" + a, b) == RepoKey(v, o, n);
    } else {
      forall v', o', n' | RepoKey(v', o', n') == RepoKey(v, o, n)
        ensures v' == v && o' == o && n' == n
      {
        NoMoreSlashes(v, o, n, v', o', n');
        RepoKeyInjective(v, o, n, v', o', n');
      }
    }
  }

  lemma Halves(s: string) returns (a: string, b: string)
    requires '/' in s
    ensures s == a + "/" + b
  {
    var i := IndexOf(s, '/');
    a, b := s[..i], s[i + 1..];
  }

  function Slashes(s: string): nat {
    if s == "" then 0 else Slashes(s[..|s| - 1]) + if s[|s| - 1] == '/' then 1 else 0
  }

  lemma {:induction false} SlashesAdd(a: string, b: string)
    ensures Slashes(a + b) == Slashes(a) + Slashes(b)
  {
    if b == "" {
      assert a + b == a;
    } else {
      assert (a + b)[..|a + b| - 1] == a + b[..|b| - 1];
      SlashesAdd(a, b[..|b| - 1]);
    }
  }

  lemma {:induction false} NoSlashes(s: string)
    ensures Slashes(s) == 0 <==> '/' !in s
  {
    if s != "" {
      NoSlashes(s[..|s| - 1]);
      assert s == s[..|s| - 1] + [s[|s| - 1]];
    }
  }

  lemma SlashesOfKey(v: string, o: string, n: string)
    ensures Slashes(RepoKey(v, o, n)) == Slashes(v) + Slashes(o) + Slashes(n) + 2
  {
    SlashesAdd(v + "/" + o + "/", n);
    SlashesAdd(v + "/" + o, "/");
    SlashesAdd(v + "/", o);
    SlashesAdd(v, "/");
    assert Slashes("/") == 1;
  }

  lemma NoMoreSlashes(v: string, o: string, n: string, v': string, o': string, n': string)
    requires '/' !in v && '/' !in o && '/' !in n && RepoKey(v', o', n') == RepoKey(v, o, n)
    ensures '/' !in v' && '/' !in o' && '/' !in n'
  {
    SlashesOfKey(v, o, n);
    SlashesOfKey(v', o', n');
    NoSlashes(v);
    NoSlashes(o);
    NoSlashes(n);
    NoSlashes(v');
    NoSlashes(o');
    NoSlashes(n');
  }
}
