// gitsim.Simulator: the table of handles beside the store's registry.
module Simulators {
  import opened Objects
  import opened RepoSpec
  import opened Repository
  import opened SimRepository
  import opened Locator
  import opened Stores

  /**
   * The handles and the repositories of `host` are in one-to-one correspondence, each handle under
   * its own key.
   */
  ghost predicate Agree(host: string, repos: map<Key, Repo>, handles: map<string, SimRepo>) {
    && (forall id :: id in handles ==> HandleOf(host, repos, id, handles[id]))
    && (forall id, id' :: id in handles && id' in handles && handles[id].repo == handles[id'].repo ==> id == id')
    && (forall k :: k in repos && k.host == host ==> HasHandle(repos[k], handles))
  }

  ghost predicate HandleOf(host: string, repos: map<Key, Repo>, id: string, h: SimRepo) {
    var k := Key(host, h.repo.owner, h.repo.name);
    id == RepoKey(h.vendor, h.repo.owner, h.repo.name) && k in repos && repos[k] == h.repo
  }

  ghost predicate HasHandle(r: Repo, handles: map<string, SimRepo>) {
    exists id :: id in handles && handles[id].repo == r
  }

  class Simulator {
    const vendors: set<string>   // the providers that were enabled
    const store: Store
    var host: string             // from the base URL, empty until it is set
    var handles: map<string, SimRepo>

    constructor (vendors: set<string>, hash: Object -> Sha)
      requires CollisionFree(hash)
      ensures store.Valid() && fresh(store) && store.repos == map[] && handles == map[] && host == ""
      ensures this.vendors == vendors && store.hash == hash
    {
      this.vendors := vendors;
      store := new Store(hash);
      host, handles := "", map[];
    }

    method SetBaseURL(host: string)
      modifies this
      ensures this.host == host && handles == old(handles)
    {
      this.host := host;
    }

    /** CreateRepo keeps the two tables in step exactly when the new handle's key was not taken. */
    method CreateRepo(vendor: string, owner: string, name: string, branch: string, files: Option<Files>, t: Time)
      returns (r: Result<SimRepo>)
      requires store.Valid()
      modifies this, store
      ensures store.Valid() && host == old(host)
      ensures r.Ok? <==> host != "" && vendor in vendors && Key(host, owner, name) !in old(store.repos) && files.Some?
      ensures r.Err? ==> store.repos == old(store.repos) && handles == old(handles)
      ensures r.Ok? ==>
                && store.Views()
                   == old(store.Views())[Key(host, owner, name) := Created(store.hash, branch, files.value, t)]
                && store.repos == old(store.repos)[Key(host, owner, name) := r.value.repo]
                && handles == old(handles)[RepoKey(vendor, owner, name) := r.value]
      ensures r.Ok? && old(Agree(host, store.repos, handles)) ==>
                (Agree(host, store.repos, handles) <==> RepoKey(vendor, owner, name) !in old(handles))
    {
      hide Repo.Valid, Store.Valid, Store.Views, Repo.View, Created, Agree;
      if host == "" { return Err("SetBaseURL must be called first"); }
      if vendor !in vendors { return Err("provider not enabled"); }
      var repo := store.CreateRepo(Key(host, owner, name), branch, files, t);
      if repo.Err? { return Err(repo.error); }
      assert store.repos[Key(host, owner, name)] == repo.value;
      assert forall k :: k in old(store.repos) ==> old(store.repos)[k] != repo.value;
      r := Register(vendor, owner, name, repo.value, old(store.repos));
    }

    method Register(vendor: string, owner: string, name: string, repo: Repo, ghost before: map<Key, Repo>)
      returns (r: Result<SimRepo>)
      requires store.Valid() && repo.owner == owner && repo.name == name && Key(host, owner, name) !in before
      requires forall k :: k in before ==> before[k] != repo
      modifies this`handles
      ensures store.Valid() && store.Views() == old(store.Views())
      ensures r.Ok? && fresh(r.value) && r.value.repo == repo
      ensures handles == old(handles)[RepoKey(vendor, owner, name) := r.value]
      ensures old(Agree(host, before, handles)) ==>
                (Agree(host, before[Key(host, owner, name) := repo], handles)
                 <==> RepoKey(vendor, owner, name) !in old(handles))
    {
      hide Agree, Repo.Valid, Repo.View, Store.Shaped;
      var sr := new SimRepo(vendor, repo);
      if Agree(host, before, handles) { AgreeWithOneMore(host, before, handles, sr); }
      handles := handles[RepoKey(vendor, owner, name) := sr];
      return Ok(sr);
    }
  }

  lemma AgreeWithOneMore(host: string, repos: map<Key, Repo>, handles: map<string, SimRepo>, h: SimRepo)
    requires Agree(host, repos, handles) && Key(host, h.repo.owner, h.repo.name) !in repos
    requires forall k :: k in repos ==> repos[k] != h.repo
    ensures var id := RepoKey(h.vendor, h.repo.owner, h.repo.name);
            Agree(host, repos[Key(host, h.repo.owner, h.repo.name) := h.repo], handles[id := h]) <==> id !in handles
  {
    var id, key := RepoKey(h.vendor, h.repo.owner, h.repo.name), Key(host, h.repo.owner, h.repo.name);
    var repos', handles' := repos[key := h.repo], handles[id := h];
    if id in handles {
      var lost := handles[id].repo;
      var k := Key(host, lost.owner, lost.name);
      assert HandleOf(host, repos, id, handles[id]);
      assert repos'[k] == lost;
      assert !HasHandle(lost, handles');
    } else {
      forall k | k in repos' && k.host == host
        ensures HasHandle(repos'[k], handles')
      {
        if k == key {
          assert handles'[id].repo == h.repo;
        } else {
          var i :| i in handles && handles[i].repo == repos[k];
          assert handles'[i].repo == repos[k];
        }
      }
      forall i | i in handles'
        ensures HandleOf(host, repos', i, handles'[i])
      {
        if i != id { assert HandleOf(host, repos, i, handles[i]); }
      }
    }
  }

  /** With slash-free vendors and owners a repository the store does not have has a free key. */
  lemma SlashFreeKeysAreFree(host: string, repos: map<Key, Repo>, handles: map<string, SimRepo>,
                             vendor: string, owner: string, name: string)
    requires Agree(host, repos, handles) && Key(host, owner, name) !in repos
    requires '/' !in vendor && '/' !in owner
    requires forall id :: id in handles ==> '/' !in handles[id].vendor && '/' !in handles[id].repo.owner
    ensures RepoKey(vendor, owner, name) !in handles
  {
    var id := RepoKey(vendor, owner, name);
    if id in handles {
      var h := handles[id];
      assert HandleOf(host, repos, id, h);
      RepoKeyInjective(vendor, owner, name, h.vendor, h.repo.owner, h.repo.name);
    }
  }
}
