// The content-addressed object store and the named references beside it.
module Objects {

  datatype Option<+T> = None | Some(value: T)
  datatype Result<+T> = Ok(value: T) | Err(error: string)

  type Sha = string
  type Time = int      // nanoseconds on the injected clock

  newtype Byte = x: int | 0 <= x < 256
  type Content = seq<Byte>
  type Files = map<string, Content>

  const ZERO_TIME: Time := 0   // Go's time.Time{}

  /** Git keeps whole seconds: time.Time.Unix, which rounds down. */
  function Seconds(t: Time): (s: int)
    ensures s * 1_000_000_000 <= t < (s + 1) * 1_000_000_000
  {
    t / 1_000_000_000
  }

  datatype Mode = Regular | Dir
  datatype TreeEntry = TreeEntry(name: string, mode: Mode, hash: Sha)

  datatype Object =
    | Blob(content: Content)
    | Tree(entries: seq<TreeEntry>)
    | Commit(tree: Sha, parents: seq<Sha>, message: string, seconds: int)
    | Tag(name: string, target: Sha, message: string, seconds: int)

  datatype Ref = HashRef(sha: Sha) | SymbolicRef(target: string)

  ghost predicate Collide(hash: Object -> Sha, a: Object, b: Object) {
    hash(a) == hash(b) && a != b
  }

  /** The hash is an arbitrary function; this is the one thing the results ask of it. */
  ghost predicate CollisionFree(hash: Object -> Sha) {
    forall a, b {:trigger Collide(hash, a, b)} :: !Collide(hash, a, b)
  }

  lemma SameHashSameObject(hash: Object -> Sha, a: Object, b: Object)
    requires CollisionFree(hash) && hash(a) == hash(b)
    ensures a == b
  {
    assert !Collide(hash, a, b);
  }

  /** The objects an object names by hash. */
  function References(o: Object): set<Sha> {
    match o
    case Blob(_) => {}
    case Tree(entries) => set e | e in entries :: e.hash
    case Commit(tree, parents, _, _) => {tree} + set p | p in parents
    case Tag(_, target, _, _) => {target}
  }

  ghost function Before(log: seq<Sha>, i: nat): set<Sha>
    requires i <= |log|
  {
    set h | h in log[..i]
  }

  /** `log` lists the store so that every object comes after all it refers to. */
  ghost predicate WellOrdered(hash: Object -> Sha, objects: map<Sha, Object>, log: seq<Sha>) {
    && objects.Keys == Before(log, |log|)
    && (forall h :: h in objects ==> hash(objects[h]) == h)
    && forall i {:trigger References(objects[log[i]])} :: 0 <= i < |log| && log[i] in objects ==>
         References(objects[log[i]]) <= Before(log, i)
  }

  /** Every stored object sits under its own hash, nothing dangles and nothing is circular. */
  ghost predicate WellFounded(hash: Object -> Sha, objects: map<Sha, Object>) {
    exists log :: WellOrdered(hash, objects, log)
  }

  /** Nothing that was stored has gone or changed. */
  ghost predicate Extends(objects: map<Sha, Object>, objects': map<Sha, Object>) {
    forall h :: h in objects ==> h in objects' && objects'[h] == objects[h]
  }

  lemma EmptyIsWellFounded(hash: Object -> Sha)
    ensures WellFounded(hash, map[])
  {
    assert WellOrdered(hash, map[], []);
  }

  lemma PutKeepsWellFounded(hash: Object -> Sha, objects: map<Sha, Object>, o: Object)
    requires CollisionFree(hash) && WellFounded(hash, objects)
    requires References(o) <= objects.Keys
    ensures WellFounded(hash, objects[hash(o) := o])
    ensures Extends(objects, objects[hash(o) := o])
  {
    var log :| WellOrdered(hash, objects, log);
    var h := hash(o);
    if h in objects {
      SameHashSameObject(hash, o, objects[h]);
      assert objects[h := o] == objects;
    } else {
      AppendToLog(hash, objects, log, o);
    }
  }

  lemma AppendToLog(hash: Object -> Sha, objects: map<Sha, Object>, log: seq<Sha>, o: Object)
    requires WellOrdered(hash, objects, log) && hash(o) !in objects
    requires References(o) <= objects.Keys
    ensures WellOrdered(hash, objects[hash(o) := o], log + [hash(o)])
  {
    var h := hash(o);
    var log', objects' := log + [h], objects[h := o];
    assert log[..|log|] == log && log'[..|log'|] == log';
    assert Before(log', |log'|) == Before(log, |log|) + {h};
    forall i | 0 <= i < |log'| && log'[i] in objects'
      ensures References(objects'[log'[i]]) <= Before(log', i)
    {
      assert log'[..i] == log[..i];
      if i < |log| { assert log[i] in Before(log, |log|); }
    }
  }

  /** Nothing the store holds refers outside it. */
  lemma NothingDangles(hash: Object -> Sha, objects: map<Sha, Object>, h: Sha)
    requires WellFounded(hash, objects) && h in objects
    ensures References(objects[h]) <= objects.Keys
  {
  }

  /** The store after writing every object of `os`. */
  ghost function PutAll(hash: Object -> Sha, objects: map<Sha, Object>, os: set<Object>): (r: map<Sha, Object>)
    requires CollisionFree(hash)
    ensures forall o :: o in os ==> hash(o) in r && r[hash(o)] == o
    ensures forall h :: h in objects ==> h in r && (r[h] == objects[h] || (r[h] in os && hash(r[h]) == h))
    ensures forall h :: h in r ==> h in objects || (r[h] in os && hash(r[h]) == h)
  {
    assert forall a, b | a in os && b in os && hash(a) == hash(b) :: a == b by {
      forall a, b | a in os && b in os && hash(a) == hash(b)
        ensures a == b
      {
        SameHashSameObject(hash, a, b);
      }
    }
    objects + map o | o in os :: hash(o) := o
  }

  lemma PutAllAt(hash: Object -> Sha, objects: map<Sha, Object>, os: set<Object>, h: Sha)
    requires CollisionFree(hash)
    ensures forall o :: o in os && hash(o) == h ==> h in PutAll(hash, objects, os) && PutAll(hash, objects, os)[h] == o
    ensures (forall o :: o in os ==> hash(o) != h) ==>
              (h in PutAll(hash, objects, os) <==> h in objects)
              && (h in objects ==> PutAll(hash, objects, os)[h] == objects[h])
  {
  }

  lemma PutAllOne(hash: Object -> Sha, objects: map<Sha, Object>, os: set<Object>, o: Object)
    requires CollisionFree(hash)
    ensures PutAll(hash, objects, os)[hash(o) := o] == PutAll(hash, objects, os + {o})
  {
    PutAllTwice(hash, objects, os, {o});
    PutAllSingle(hash, PutAll(hash, objects, os), o);
  }

  lemma PutAllSingle(hash: Object -> Sha, objects: map<Sha, Object>, o: Object)
    requires CollisionFree(hash)
    ensures PutAll(hash, objects, {o}) == objects[hash(o) := o]
  {
  }

  lemma PutAllTwice(hash: Object -> Sha, objects: map<Sha, Object>, os: set<Object>, ps: set<Object>)
    requires CollisionFree(hash)
    ensures PutAll(hash, PutAll(hash, objects, os), ps) == PutAll(hash, objects, os + ps)
  {
    var m := PutAll(hash, objects, os);
    var l, r := PutAll(hash, m, ps), PutAll(hash, objects, os + ps);
    forall h
      ensures (h in l <==> h in r) && (h in l ==> l[h] == r[h])
    {
      PutAllAt(hash, objects, os, h);
      PutAllAt(hash, m, ps, h);
      PutAllAt(hash, objects, os + ps, h);
    }
  }

  /** Writing objects never changes or removes what a well-founded store already holds. */
  lemma PutAllOnlyAdds(hash: Object -> Sha, objects: map<Sha, Object>, os: set<Object>)
    requires CollisionFree(hash) && WellFounded(hash, objects)
    ensures Extends(objects, PutAll(hash, objects, os))
  {
    forall h | h in objects
      ensures PutAll(hash, objects, os)[h] == objects[h]
    {
      SameHashSameObject(hash, PutAll(hash, objects, os)[h], objects[h]);
    }
  }

  /** A path in the store: each object refers to the next. */
  ghost predicate ReferencePath(objects: map<Sha, Object>, path: seq<Sha>) {
    && (forall i :: 0 <= i < |path| ==> path[i] in objects)
    && (forall i :: 0 <= i < |path| - 1 ==> path[i + 1] in References(objects[path[i]]))
  }

  /** No object reaches itself. */
  lemma {:induction false} NoCycles(hash: Object -> Sha, objects: map<Sha, Object>, path: seq<Sha>)
    requires WellFounded(hash, objects) && ReferencePath(objects, path) && |path| >= 2
    ensures path[0] != path[|path| - 1]
  {
    var log :| WellOrdered(hash, objects, log);
    assert path[0] in Before(log, |log|);
    var i :| 0 <= i < |log| && log[i] == path[0] && path[0] !in log[..i] by { FirstOccurrence(log, path[0]); }
    PathDescends(hash, objects, log, path, i);
  }

  lemma {:induction false} FirstOccurrence(log: seq<Sha>, x: Sha)
    requires x in log
    ensures exists i :: 0 <= i < |log| && log[i] == x && x !in log[..i]
  {
    var n := |log| - 1;
    if x in log[..n] {
      FirstOccurrence(log[..n], x);
      var i :| 0 <= i < n && log[..n][i] == x && x !in log[..n][..i];
      assert log[..n][..i] == log[..i];
      assert log[i] == x;
    } else {
      assert log[n] == x;
    }
  }

  lemma {:induction false} PathDescends(hash: Object -> Sha, objects: map<Sha, Object>, log: seq<Sha>,
                                        path: seq<Sha>, i: nat)
    requires WellOrdered(hash, objects, log) && ReferencePath(objects, path) && |path| >= 2
    requires i < |log| && log[i] == path[0]
    ensures path[|path| - 1] in log[..i]
  {
    assert path[1] in Before(log, i);
    if |path| > 2 {
      var j :| 0 <= j < i && log[j] == path[1];
      assert ReferencePath(objects, path[1..]) by {
        forall k | 0 <= k < |path| - 2
          ensures path[1..][k + 1] in References(objects[path[1..][k]])
        {
          assert path[k + 2] in References(objects[path[k + 1]]);
        }
      }
      PathDescends(hash, objects, log, path[1..], j);
      assert forall x :: x in log[..j] ==> x in log[..i];
    }
  }

  /** go-git's in-memory storage: objects are only ever added, references are overwritten. */
  class Storage {
    const hash: Object -> Sha
    var objects: map<Sha, Object>
    var refs: map<string, Ref>

    constructor (hash: Object -> Sha)
      ensures this.hash == hash && objects == map[] && refs == map[]
    {
      this.hash := hash;
      objects, refs := map[], map[];
    }

    method SetObject(o: Object) returns (h: Sha)
      modifies this`objects
      ensures h == hash(o) && objects == old(objects)[h := o]
    {
      h := hash(o);
      objects := objects[h := o];
    }

    method SetReference(name: string, ref: Ref)
      modifies this`refs
      ensures refs == old(refs)[name := ref]
    {
      refs := refs[name := ref];
    }
  }
}
