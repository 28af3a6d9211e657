// store.Store: the registry of repositories, and the git server's way into it.
module Stores {
  import opened Objects
  import opened RepoSpec
  import opened RepoInvariant
  import opened Repository
  import opened Locator

  datatype Key = Key(host: string, owner: string, name: string)

  class Store {
    const hash: Object -> Sha
    var repos: map<Key, Repo>

    constructor (hash: Object -> Sha)
      requires CollisionFree(hash)
      ensures Valid() && repos == map[] && this.hash == hash
    {
      this.hash := hash;
      repos := map[];
    }

    /** Every repository sits under its own identity, and no two share a storer. */
    ghost predicate Shaped()
      reads this
    {
      && CollisionFree(hash)
      && (forall k :: k in repos ==>
            k == Key(repos[k].host, repos[k].owner, repos[k].name) && repos[k].storer.hash == hash)
      && (forall k, l :: k in repos && l in repos && repos[k].storer == repos[l].storer ==> k == l)
    }

    ghost function Storers(): set<Storage>
      reads this
    {
      set k | k in repos :: repos[k].storer
    }

    ghost function Records(): set<BranchState>
      reads this, repos.Values
    {
      set k, b | k in repos && b in repos[k].branches.Values :: b
    }

    /** Every repository keeps its own invariant, too. */
    ghost predicate Valid()
      reads this, repos.Values, Storers(), Records()
    {
      Shaped() && forall k :: k in repos ==> repos[k].Valid()
    }

    /** The state of the whole store. */
    ghost function Views(): (m: map<Key, RepoView>)
      requires Valid()
      reads this, repos.Values, Storers(), Records()
      ensures m.Keys == repos.Keys
    {
      map k | k in repos :: repos[k].View()
    }

    /** CreateRepo; `files` is what the content provider returned, None when it failed. */
    method CreateRepo(key: Key, branch: string, files: Option<Files>, t: Time) returns (r: Result<Repo>)
      requires Valid()
      modifies this
      ensures Valid()
      ensures r.Ok? <==> key !in old(repos) && files.Some?
      ensures r.Err? ==> repos == old(repos)
      ensures r.Ok? ==>
                && repos == old(repos)[key := r.value] && fresh(r.value)
                && key == Key(r.value.host, r.value.owner, r.value.name)
                && Views() == old(Views())[key := Created(hash, branch, files.value, t)]
    {
      hide Repo.Valid, Repo.View, Created, Sound;
      if key in repos { return Err("already exists"); }
      if files.None? { return Err("content"); }
      var repo := new Repo(hash, key.host, key.owner, key.name, branch, files.value, t);
      assert Valid() && Views() == old(Views());
      Register(key, repo);
      return Ok(repo);
    }

    method Register(key: Key, repo: Repo)
      requires Valid() && repo.Valid() && key !in repos
      requires key == Key(repo.host, repo.owner, repo.name) && repo.storer.hash == hash
      requires forall k :: k in repos ==> repos[k].storer != repo.storer
      modifies this
      ensures Valid() && repos == old(repos)[key := repo]
      ensures Views() == old(Views())[key := repo.View()]
    {
      hide Sound, Repo.View, Repo.Shaped;
      repos := repos[key := repo];
      AfterOne(key);
    }

    /** When only one repository is new or changed, so is only its part of the state. */
    twostate lemma AfterOne(key: Key)
      requires old(Valid()) && Shaped() && repos.Keys == old(repos).Keys + {key} && repos[key].Valid()
      requires forall k :: k in old(repos) && k != key ==>
                 repos[k] == old(repos[k]) && repos[k].Valid() && repos[k].View() == old(repos[k].View())
      ensures Valid() && Views() == old(Views())[key := repos[key].View()]
    {
      hide Sound, Repo.View, Repo.Shaped;
      OneMoreView(old(Views()), Views(), key, repos[key].View());
    }

    /** GetRepo finds the one repository with the identity asked for, or there is none. */
    function GetRepo(key: Key): (r: Result<Repo>)
      requires Valid()
      reads this, repos.Values, Storers(), Records()
      ensures r.Ok? ==> r.value in repos.Values && r.value.Valid()
      ensures r.Ok? ==> Key(r.value.host, r.value.owner, r.value.name) == key
      ensures r.Err? ==> forall k :: k in repos ==> Key(repos[k].host, repos[k].owner, repos[k].name) != key
    {
      if key in repos then Ok(repos[key]) else Err("not found")
    }

    /** What a look at one repository may write to: its references and its branch records. */
    ghost function Touched(key: Key): set<object>
      reads this, repos.Values
    {
      if key !in repos then {}
      else
        var records: set<object> := set b | b in repos[key].branches.Values :: b;
        records + {repos[key].storer}
    }

    /** VisibleCommit, by identity; no other repository notices. */
    method VisibleCommit(key: Key, branch: string, now: Time) returns (sha: Sha, ok: bool)
      requires Valid()
      modifies Touched(key)
      ensures Valid()
      ensures key in repos ==> Views() == old(Views())[key := Step(hash, old(Views()[key]), Look(branch, now))]
      ensures key !in repos ==> Views() == old(Views())
      ensures ok <==> key in repos && branch in repos[key].branches
      ensures ok ==> sha == repos[key].branches[branch].visibleSHA
    {
      hide Repo.Valid, Step;
      if GetRepo(key).Err? { return "", false; }
      sha, ok := LookAt(key, branch, now);
    }

    method LookAt(key: Key, branch: string, now: Time) returns (sha: Sha, ok: bool)
      requires Valid() && key in repos
      modifies Touched(key)
      ensures Valid() && Views() == old(Views())[key := Step(hash, old(Views()[key]), Look(branch, now))]
      ensures ok <==> branch in repos[key].branches
      ensures ok ==> sha == repos[key].branches[branch].visibleSHA
    {
      hide Sound, Step, Repo.View, Repo.Shaped;
      AllApart(key);
      sha, ok := repos[key].VisibleCommit(branch, now);
      AfterOne(key);
    }

    lemma AllApart(key: Key)
      requires Valid() && key in repos
      ensures forall k :: k in repos && k != key ==> IsApart(k, key)
    {
      hide Repo.Valid;
      forall k | k in repos && k != key
        ensures IsApart(k, key)
      {
        Separate(k, key);
      }
    }

    ghost predicate IsApart(k: Key, key: Key)
      requires k in repos
      reads this, repos.Values
    {
      && repos[k].storer !in Touched(key)
      && forall b :: b in repos[k].branches.Values ==> b !in Touched(key)
    }

    lemma Separate(k: Key, key: Key)
      requires Valid() && k in repos && key in repos && k != key
      ensures IsApart(k, key)
    {
      hide Sound, Repo.View;
      assert repos[k].Valid() && repos[key].Valid();
    }

    /** The repository a URL path on `host` names, if it names one. */
    ghost function Named(host: string, urlPath: string): Option<Key>
      reads this
    {
      match Parse(urlPath)
      case Some((owner, name)) => if Key(host, owner, name) in repos then Some(Key(host, owner, name)) else None
      case None => None
    }

    /** resolveRepo: the repository a git client asks for, with its due promotions flushed first, and no other's. */
    method ResolveRepo(host: string, urlPath: string, now: Time) returns (r: Result<Repo>)
      requires Valid()
      modifies if Named(host, urlPath).Some? then Touched(Named(host, urlPath).value) else {}
      ensures Valid() && (r.Ok? <==> Named(host, urlPath).Some?)
      ensures r.Ok? ==>
                var key := Named(host, urlPath).value;
                r.value == repos[key] && Views() == old(Views())[key := Step(hash, old(Views()[key]), LookAll(now))]
      ensures r.Err? ==> Views() == old(Views())
    {
      hide Repo.Valid, Step, Parse, Views;
      var parsed := Parse(urlPath);
      if parsed.None? { return Err("invalid repo path"); }
      var key := Key(host, parsed.value.0, parsed.value.1);
      r := GetRepo(key);
      if r.Err? { return; }
      FlushAt(key, now);
    }

    method FlushAt(key: Key, now: Time)
      requires Valid() && key in repos
      modifies Touched(key)
      ensures Valid() && Views() == old(Views())[key := Step(hash, old(Views()[key]), LookAll(now))]
    {
      hide Sound, Step, Repo.View, Repo.Shaped;
      AllApart(key);
      var refs := repos[key].VisibleRefs(now);
      AfterOne(key);
    }
  }

  lemma OneMoreView(m: map<Key, RepoView>, m': map<Key, RepoView>, key: Key, v: RepoView)
    requires m'.Keys == m.Keys + {key} && m'[key] == v
    requires forall k :: k in m && k != key ==> m'[k] == m[k]
    ensures m' == m[key := v]
  {
  }
}
