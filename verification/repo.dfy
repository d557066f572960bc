/**
 * The repository model and its builder: `LoadRepo` reads the flat git configuration (dotted key to
 * value) and the listing of `.git/refs/heads`, and builds the remotes and branches of the repository.
 */
module Repository {
  import opened GoStrings

  /** A configured remote: `Url` and `Fetch` of `remote.<name>`, "" when unset. */
  datatype Remote = Remote(url: string, fetch: string)

  /** A local branch: its name, the remote it tracks and its merge ref, "" when unset. */
  datatype Branch = Branch(name: string, remote: string, merge: string)

  /** The repository: remotes and branches, each keyed by name. */
  datatype Repo = Repo(remotes: map<string, Remote>, branches: map<string, Branch>)

  /** One entry of a directory listing. */
  datatype DirEntry = DirEntry(name: string, isDir: bool)

  /** The parsed git configuration: fully qualified dotted key to value. */
  type Config = map<string, string>

  /** Go's `config[key]`: the value, or the empty string when the key is absent. */
  function Get(config: Config, key: string): (v: string)
    ensures key in config ==> v == config[key]
    ensures v != "" ==> key in config
  {
    if key in config then config[key] else ""
  }

  // ---------------------------------------------------------------------------------------------
  // Keys and the entries they declare

  /** `k` has a first dotted field `section` and a second field (the entry's name). */
  predicate IsSectionKey(k: string, section: string)
  {
    |Split(k)| >= 2 && Split(k)[0] == section
  }

  /** The name a key declares: its second dotted field, so a dotted name is cut at its first dot. */
  function NameOf(k: string): string
    requires |Split(k)| >= 2
  {
    Split(k)[1]
  }

  /**
   * Every key whose first field is `remote` or `branch` has a second field; the Go code indexes
   * that field without a check. A configuration parser always produces `section.key` keys.
   */
  predicate NamesResolvable(config: Config)
  {
    forall k | k in config && Split(k)[0] in {"remote", "branch"} :: |Split(k)| >= 2
  }

  /** `keys` lists the keys of `config`: one order in which Go's `range` may visit them. */
  ghost predicate Enumerates(keys: seq<string>, config: Config)
  {
    forall k :: k in keys <==> k in config
  }

  /** The names that keys in `keys` declare in `section`. */
  function SectionNames(keys: set<string>, section: string): set<string>
  {
    set k | k in keys && IsSectionKey(k, section) :: NameOf(k)
  }

  // The keys the builder formats for a name: the name fills the `%s`, except in the merge key,
  // which is formatted with no argument.

  lemma UrlKey(name: string)
    ensures OnlyStringVerbs("remote.%s.url")
    ensures Sprintf("remote.%s.url", [name]) == "remote." + name + ".url"
  {
    SprintfOneVerb("remote.", ".url", name);
    assert "remote.%s.url" == "remote." + "%s" + ".url";
  }

  lemma FetchKey(name: string)
    ensures OnlyStringVerbs("remote.%s.fetch")
    ensures Sprintf("remote.%s.fetch", [name]) == "remote." + name + ".fetch"
  {
    SprintfOneVerb("remote.", ".fetch", name);
    assert "remote.%s.fetch" == "remote." + "%s" + ".fetch";
  }

  lemma BranchRemoteKey(name: string)
    ensures OnlyStringVerbs("branch.%s.remote")
    ensures Sprintf("branch.%s.remote", [name]) == "branch." + name + ".remote"
  {
    SprintfOneVerb("branch.", ".remote", name);
    assert "branch.%s.remote" == "branch." + "%s" + ".remote";
  }

  /** The key the merge ref is read from for every branch: `branch.%!s(MISSING).merge`. */
  const MissingMergeKey := "branch." + "%!s(MISSING)" + ".merge"

  lemma MergeKey()
    ensures OnlyStringVerbs("branch.%s.merge")
    ensures Sprintf("branch.%s.merge", []) == MissingMergeKey
  {
    SprintfMissingVerb("branch.", ".merge");
    assert "branch.%s.merge" == "branch." + "%s" + ".merge";
  }

  /** The remote synthesised for `name`: its url and fetch keys, looked up under the formatted key. */
  function RemoteFor(config: Config, name: string): (r: Remote)
    ensures r.url == Get(config, "remote." + name + ".url")
    ensures r.fetch == Get(config, "remote." + name + ".fetch")
  {
    UrlKey(name);
    FetchKey(name);
    Remote(Get(config, Sprintf("remote.%s.url", [name])),
           Get(config, Sprintf("remote.%s.fetch", [name])))
  }

  /**
   * The branch synthesised for `name`. The merge key is formatted with no argument, so every branch
   * reads the same key, `branch.%!s(MISSING).merge`, not `branch.<name>.merge`.
   */
  function BranchFor(config: Config, name: string): (b: Branch)
    ensures b.name == name
    ensures b.remote == Get(config, "branch." + name + ".remote")
    ensures b.merge == Get(config, MissingMergeKey)
  {
    BranchRemoteKey(name);
    MergeKey();
    Branch(name, Get(config, Sprintf("branch.%s.remote", [name])),
           Get(config, Sprintf("branch.%s.merge", [])))
  }

  /** The remotes that the keys in `keys` declare. */
  function RemotesOver(config: Config, keys: set<string>): map<string, Remote>
  {
    RemotesNamed(config, SectionNames(keys, "remote"))
  }

  /** The remote synthesised for each of `names`. */
  function RemotesNamed(config: Config, names: set<string>): map<string, Remote>
  {
    map n | n in names :: RemoteFor(config, n)
  }

  /** The branches that the keys in `keys` declare. */
  function BranchesOver(config: Config, keys: set<string>): map<string, Branch>
  {
    BranchesNamed(config, SectionNames(keys, "branch"))
  }

  /** The branch synthesised for each of `names`. */
  function BranchesNamed(config: Config, names: set<string>): map<string, Branch>
  {
    map n | n in names :: BranchFor(config, n)
  }

  /** The remotes of the configuration. */
  function ConfigRemotes(config: Config): map<string, Remote>
  {
    RemotesOver(config, config.Keys)
  }

  /** The branches of the configuration. */
  function ConfigBranches(config: Config): map<string, Branch>
  {
    BranchesOver(config, config.Keys)
  }

  /**
   * The configuration has one remote per name declared by a `remote.<name>...` key, holding the
   * url and fetch values of that name, and no other remote.
   */
  lemma ConfigRemotesContents(config: Config)
    ensures var remotes := ConfigRemotes(config);
      && (forall k | k in config && IsSectionKey(k, "remote") ::
            NameOf(k) in remotes
            && remotes[NameOf(k)].url == Get(config, "remote." + NameOf(k) + ".url")
            && remotes[NameOf(k)].fetch == Get(config, "remote." + NameOf(k) + ".fetch"))
      && (forall n | n in remotes :: exists k :: k in config && IsSectionKey(k, "remote") && NameOf(k) == n)
  {
  }

  /**
   * The configuration has one branch per name declared by a `branch.<name>...` key, named after it
   * and tracking `branch.<name>.remote`, and no other branch.
   */
  lemma ConfigBranchesContents(config: Config)
    ensures var branches := ConfigBranches(config);
      && (forall k | k in config && IsSectionKey(k, "branch") ::
            NameOf(k) in branches
            && branches[NameOf(k)] == Branch(NameOf(k), Get(config, "branch." + NameOf(k) + ".remote"),
                                             Get(config, MissingMergeKey)))
      && (forall n | n in branches :: exists k :: k in config && IsSectionKey(k, "branch") && NameOf(k) == n)
  {
  }

  // ---------------------------------------------------------------------------------------------
  // Ref files

  /** A listing entry that becomes a branch: a plain file not named HEAD in any mix of cases. */
  predicate IsRefBranch(e: DirEntry)
  {
    !e.isDir && ToUpperAscii(e.name) != "HEAD"
  }

  /** The branch names the listing contributes. */
  function RefNames(listing: seq<DirEntry>): set<string>
  {
    set e | e in listing && IsRefBranch(e) :: e.name
  }

  /**
   * The branches of the built repository: those of the configuration plus a bare branch for every
   * listed ref file the configuration does not name.
   */
  function LoadedBranches(config: Config, listing: seq<DirEntry>): map<string, Branch>
  {
    WithRefs(ConfigBranches(config), listing)
  }

  /** `branches` plus a bare branch for every listed ref file it does not name. */
  function WithRefs(branches: map<string, Branch>, listing: seq<DirEntry>): map<string, Branch>
  {
    WithBare(branches, RefNames(listing))
  }

  /** `branches` plus a bare branch (no remote, no merge ref) for every name of `names` it lacks. */
  function WithBare(branches: map<string, Branch>, names: set<string>): map<string, Branch>
  {
    branches + map n | n in names && n !in branches :: Branch(n, "", "")
  }

  /**
   * The configuration takes precedence: its branches are kept unchanged; every listed ref file it
   * does not name becomes a bare branch (no remote, no merge ref); no other name appears, and every
   * branch is stored under its own name.
   */
  lemma LoadedBranchesContents(config: Config, listing: seq<DirEntry>)
    ensures var branches := LoadedBranches(config, listing);
      && (forall n | n in ConfigBranches(config) :: n in branches && branches[n] == ConfigBranches(config)[n])
      && (forall e | e in listing && IsRefBranch(e) && e.name !in ConfigBranches(config) ::
            e.name in branches && branches[e.name] == Branch(e.name, "", ""))
      && (forall n | n in branches :: n in ConfigBranches(config) || n in RefNames(listing))
      && (forall n | n in branches :: branches[n].name == n)
  {
  }

  // ---------------------------------------------------------------------------------------------
  // The builder

  /** Visiting one more key adds the name it declares, if any, to the declared names. */
  lemma SectionNamesStep(keys: set<string>, k: string, section: string)
    ensures SectionNames(keys + {k}, section)
         == SectionNames(keys, section) + (if IsSectionKey(k, section) then {NameOf(k)} else {})
  {
  }

  /** Visiting one more key adds the remote it declares unless that name is already present. */
  lemma RemotesStep(config: Config, keys: set<string>, k: string)
    ensures var before := RemotesOver(config, keys);
      RemotesOver(config, keys + {k})
      == if IsSectionKey(k, "remote") && NameOf(k) !in before
         then before[NameOf(k) := RemoteFor(config, NameOf(k))] else before
  {
    SectionNamesStep(keys, k, "remote");
    if IsSectionKey(k, "remote") {
      RemotesNamedStep(config, SectionNames(keys, "remote"), NameOf(k));
    }
  }

  /** One more name adds its remote when the name is new. */
  lemma RemotesNamedStep(config: Config, names: set<string>, n: string)
    ensures var before := RemotesNamed(config, names);
      RemotesNamed(config, names + {n}) == if n in names then before else before[n := RemoteFor(config, n)]
  {
  }

  /** Visiting one more key adds the branch it declares unless that name is already present. */
  lemma BranchesStep(config: Config, keys: set<string>, k: string)
    ensures var before := BranchesOver(config, keys);
      BranchesOver(config, keys + {k})
      == if IsSectionKey(k, "branch") && NameOf(k) !in before
         then before[NameOf(k) := BranchFor(config, NameOf(k))] else before
  {
    SectionNamesStep(keys, k, "branch");
    if IsSectionKey(k, "branch") {
      BranchesNamedStep(config, SectionNames(keys, "branch"), NameOf(k));
    }
  }

  /** One more name adds its branch when the name is new. */
  lemma BranchesNamedStep(config: Config, names: set<string>, n: string)
    ensures var before := BranchesNamed(config, names);
      BranchesNamed(config, names + {n}) == if n in names then before else before[n := BranchFor(config, n)]
  {
  }

  /** One iteration of the configuration loop, in the shape of the Go code's `vals[0]` test. */
  lemma CollectStep(config: Config, visited: set<string>, k: string)
    requires NamesResolvable(config) && k in config
    ensures var vals := Split(k);
      var remotes := RemotesOver(config, visited);
      var branches := BranchesOver(config, visited);
      && (vals[0] == "remote" ==> |vals| >= 2)
      && (vals[0] == "branch" ==> |vals| >= 2)
      && RemotesOver(config, visited + {k})
         == (if vals[0] == "remote" && vals[1] !in remotes
             then remotes[vals[1] := RemoteFor(config, vals[1])] else remotes)
      && BranchesOver(config, visited + {k})
         == (if vals[0] == "branch" && vals[1] !in branches
             then branches[vals[1] := BranchFor(config, vals[1])] else branches)
  {
    RemotesStep(config, visited, k);
    BranchesStep(config, visited, k);
  }

  /** One more listing entry adds its name when it is a ref branch. */
  lemma RefNamesStep(listing: seq<DirEntry>, e: DirEntry)
    ensures RefNames(listing + [e]) == RefNames(listing) + (if IsRefBranch(e) then {e.name} else {})
  {
    assert forall x :: x in listing + [e] <==> x in listing || x == e;
  }

  /** One more listing entry adds a bare branch when it is a ref branch not yet present. */
  lemma WithRefsStep(branches: map<string, Branch>, listing: seq<DirEntry>, e: DirEntry)
    ensures var before := WithRefs(branches, listing);
      WithRefs(branches, listing + [e])
      == if IsRefBranch(e) && e.name !in before then before[e.name := Branch(e.name, "", "")] else before
  {
    RefNamesStep(listing, e);
    if IsRefBranch(e) {
      BareStep(branches, RefNames(listing), e.name);
    }
  }

  /** One more name adds a bare branch exactly when the name is not yet present. */
  lemma BareStep(branches: map<string, Branch>, names: set<string>, n: string)
    ensures var before := WithBare(branches, names);
      WithBare(branches, names + {n})
      == if n !in before then before[n := Branch(n, "", "")] else before
  {
    var before := WithBare(branches, names);
    var after := WithBare(branches, names + {n});
    if n in before {
      assert after.Keys == before.Keys;
    } else {
      assert after.Keys == before.Keys + {n};
    }
  }

  /**
   * One iteration of the configuration loop of `LoadRepo`: a `remote.<name>.…` key adds the remote
   * `<name>` and a `branch.<name>.…` key the branch `<name>`, each only when the name is absent.
   * Visiting `k` turns the maps built from the keys in `visited` into those built from one more key.
   */
  method VisitKey(config: Config, ghost visited: set<string>, k: string,
                  remotes: map<string, Remote>, branches: map<string, Branch>)
    returns (remotes': map<string, Remote>, branches': map<string, Branch>)
    requires NamesResolvable(config) && k in config
    requires remotes == RemotesOver(config, visited)
    requires branches == BranchesOver(config, visited)
    ensures remotes' == RemotesOver(config, visited + {k})
    ensures branches' == BranchesOver(config, visited + {k})
  {
    CollectStep(config, visited, k);
    remotes', branches' := remotes, branches;
    var vals := Split(k);
    if vals[0] == "remote" {
      var remoteName := vals[1];
      if remoteName !in remotes' {
        remotes' := remotes'[remoteName := RemoteFor(config, remoteName)];
      }
    } else if vals[0] == "branch" {
      var branchName := vals[1];
      if branchName !in branches' {
        branches' := branches'[branchName := BranchFor(config, branchName)];
      }
    }
  }

  /**
   * The configuration loop of `LoadRepo`: visits the keys in the order `keys` and gives every
   * declared name the entry synthesised the first time it is seen. As that entry depends on the
   * name alone, the result does not depend on the visiting order.
   */
  method CollectConfig(config: Config, keys: seq<string>)
    returns (remotes: map<string, Remote>, branches: map<string, Branch>)
    requires Enumerates(keys, config)
    requires NamesResolvable(config)
    ensures remotes == ConfigRemotes(config)
    ensures branches == ConfigBranches(config)
  {
    remotes, branches := map[], map[];
    ghost var visited: set<string> := {};
    for i := 0 to |keys|
      invariant forall k :: k in visited <==> k in keys[..i]
      invariant remotes == RemotesOver(config, visited)
      invariant branches == BranchesOver(config, visited)
    {
      var k := keys[i];
      assert keys[..i + 1] == keys[..i] + [k];
      remotes, branches := VisitKey(config, visited, k, remotes, branches);
      visited := visited + {k};
    }
    assert keys[..|keys|] == keys;
    assert visited == config.Keys;
  }

  /**
   * The ref loop of `LoadRepo`: every plain file of the listing whose name is not HEAD in any case
   * and is not yet a branch becomes a bare branch; branches already present are left as they are.
   */
  method AddRefBranches(branches: map<string, Branch>, listing: seq<DirEntry>)
    returns (result: map<string, Branch>)
    ensures result == WithRefs(branches, listing)
  {
    result := branches;
    for i := 0 to |listing|
      invariant result == WithRefs(branches, listing[..i])
    {
      var entry := listing[i];
      assert listing[..i + 1] == listing[..i] + [entry];
      WithRefsStep(branches, listing[..i], entry);
      if entry.isDir {
        continue;
      }
      var branch := entry.name;
      if ToUpperAscii(branch) == "HEAD" {
        continue;
      }
      if branch !in result {
        result := result[branch := Branch(branch, "", "")];
      }
    }
    assert listing[..|listing|] == listing;
  }

  /**
   * Builds the repository from the configuration, visited in the order `keys`, and the listing of
   * `.git/refs/heads`: for every visiting order, the remotes of the configuration and its branches
   * together with the bare ref branches.
   */
  method LoadRepo(config: Config, keys: seq<string>, listing: seq<DirEntry>) returns (r: Repo)
    requires Enumerates(keys, config)
    requires NamesResolvable(config)
    ensures r.remotes == ConfigRemotes(config)
    ensures r.branches == LoadedBranches(config, listing)
  {
    var remotes, branches := CollectConfig(config, keys);
    branches := AddRefBranches(branches, listing);
    r := Repo(remotes, branches);
  }
}
