/**
 * Worked examples: small configurations and ref listings, built into a repository the way
 * `LoadRepo` builds it, and the outcome of resolving one branch of each.
 */
module Scenarios {
  import opened Wrappers
  import opened GoStrings
  import opened Repository
  import opened Ticket

  /** The repository `LoadRepo` builds from `config` and `listing`, whatever the key order. */
  function Built(config: Config, listing: seq<DirEntry>): Repo
  {
    Repo(ConfigRemotes(config), LoadedBranches(config, listing))
  }

  /** A three-field key `section.name.field` with dot-free fields splits back into those fields. */
  lemma KeyFields(section: string, name: string, field: string)
    requires '.' !in section && '.' !in name && '.' !in field
    ensures Split(section + "." + name + "." + field) == [section, name, field]
  {
    var parts := [section, name, field];
    assert Join(parts[2..]) == field;
    assert Join(parts[1..]) == name + "." + field;
    assert Join(parts) == section + "." + name + "." + field;
    SplitJoin(parts);
  }

  /** A configuration with one remote, given by its url, and one branch tracking that remote. */
  function OneTrackedBranch(remote: string, url: string, branch: string): Config
  {
    map["remote." + remote + ".url" := url, "branch." + branch + ".remote" := remote]
  }

  /** In the repository built from `OneTrackedBranch`, the branch tracks the remote at `url`. */
  lemma {:induction false} TrackedBranchRemote(remote: string, url: string, branch: string, listing: seq<DirEntry>)
    requires '.' !in remote && '.' !in branch
    ensures var r := Built(OneTrackedBranch(remote, url, branch), listing);
      branch in r.branches && r.branches[branch].remote == remote && RemoteUrl(r, remote) == url
  {
    TrackedKeys(remote, url, branch);
    var config := OneTrackedBranch(remote, url, branch);
    ConfigRemotesContents(config);
    ConfigBranchesContents(config);
    LoadedBranchesContents(config, listing);
  }

  /** The two keys of `OneTrackedBranch` declare the remote and the branch, with their values. */
  lemma TrackedKeys(remote: string, url: string, branch: string)
    requires '.' !in remote && '.' !in branch
    ensures var config := OneTrackedBranch(remote, url, branch);
      var urlKey := "remote." + remote + ".url";
      var branchKey := "branch." + branch + ".remote";
      && urlKey in config && IsSectionKey(urlKey, "remote") && NameOf(urlKey) == remote
      && branchKey in config && IsSectionKey(branchKey, "branch") && NameOf(branchKey) == branch
      && Get(config, urlKey) == url && Get(config, branchKey) == remote
  {
    KeyFields("remote", remote, "url");
    KeyFields("branch", branch, "remote");
    var urlKey := "remote" + "." + remote + "." + "url";
    var branchKey := "branch" + "." + branch + "." + "remote";
    assert urlKey == "remote." + remote + ".url";
    assert branchKey == "branch." + branch + ".remote";
    assert urlKey != branchKey by { assert urlKey[0] != branchKey[0]; }
  }

  /** A branch tracking a GitHub remote resolves to no URL: GitHub has no ticket rule. */
  lemma GithubHasNoRule(hostname: HostnameOf, remote: string, url: string, branch: string)
    requires '.' !in remote && '.' !in branch && remote != ""
    requires hostname(url) == Some("github.com")
    ensures OpenTicketForBranch(Built(OneTrackedBranch(remote, url, branch), []), branch, hostname)
            == NoRule(Github)
  {
    TrackedBranchRemote(remote, url, branch, []);
  }

  /** A ticket followed by dot-free text has no dot. */
  lemma TicketNameDotFree(digits: string, rest: string)
    requires |digits| == 6 && forall k :: 0 <= k < 6 ==> IsAsciiDigit(digits[k])
    requires '.' !in rest
    ensures '.' !in "ABR-" + digits + rest
  {
    var branch := "ABR-" + digits + rest;
    forall k | 0 <= k < |branch| ensures branch[k] != '.' {
      if k < 4 { assert branch[k] == "ABR-"[k]; }
      else if k < 10 { assert branch[k] == digits[k - 4]; }
      else { assert branch[k] == rest[k - 10]; }
    }
  }

  /**
   * A branch tracking an Acronis remote and named by a ticket followed by more text opens the
   * browse URL of the whole name, not of the ticket alone.
   */
  lemma AcronisOpensWholeName(hostname: HostnameOf, remote: string, url: string, digits: string, rest: string)
    requires '.' !in remote && '.' !in rest && remote != ""
    requires |digits| == 6 && forall k :: 0 <= k < 6 ==> IsAsciiDigit(digits[k])
    requires hostname(url) == Some("git.acronis.com")
    ensures var branch := "ABR-" + digits + rest;
      OpenTicketForBranch(Built(OneTrackedBranch(remote, url, branch), []), branch, hostname)
      == Open(AcronisBrowse + branch, "ABR-" + digits)
  {
    var branch := "ABR-" + digits + rest;
    TicketNameDotFree(digits, rest);
    var r := Built(OneTrackedBranch(remote, url, branch), []);
    TrackedBranchRemote(remote, url, branch, []);
    assert GetRemoteType(r, r.branches[branch].remote, hostname) == Acronis;
    TicketFirstOpens(r, hostname, digits, rest);
  }

  /** A branch whose name starts with a ticket, on an Acronis remote, opens its whole name. */
  lemma TicketFirstOpens(r: Repo, hostname: HostnameOf, digits: string, rest: string)
    requires |digits| == 6 && forall k :: 0 <= k < 6 ==> IsAsciiDigit(digits[k])
    requires "ABR-" + digits + rest in r.branches
    requires GetRemoteType(r, r.branches["ABR-" + digits + rest].remote, hostname) == Acronis
    ensures var branch := "ABR-" + digits + rest;
      OpenTicketForBranch(r, branch, hostname) == Open(AcronisBrowse + branch, "ABR-" + digits)
  {
    var branch := "ABR-" + digits + rest;
    assert "" + "ABR-" + digits + rest == branch;
    TicketRoundTrip(r, hostname, "", digits, rest);
  }

  /** A branch tracking a remote on a host outside the provider table resolves to no URL. */
  lemma UnlistedHostIsUnknown(hostname: HostnameOf, remote: string, url: string, branch: string)
    requires '.' !in remote && '.' !in branch && remote != ""
    requires hostname(url) == Some("gitlab.example.com")
    ensures OpenTicketForBranch(Built(OneTrackedBranch(remote, url, branch), []), branch, hostname)
            == UnknownRemote
  {
    TrackedBranchRemote(remote, url, branch, []);
  }

  /**
   * A branch known only from its ref file has no remote, so it is taken for Acronis; a name
   * without a ticket then resolves to nothing.
   */
  lemma RefOnlyBranchWithoutTicket(hostname: HostnameOf)
    ensures OpenTicketForBranch(Built(map[], [DirEntry("hotfix", false)]), "hotfix", hostname) == NoTicket
  {
    var listing := [DirEntry("hotfix", false)];
    assert ToUpperAscii("hotfix") != "HEAD";
    assert "hotfix" in RefNames(listing);
    LoadedBranchesContents(map[], listing);
    assert !Contains(AcronisTicket, "hotfix");
  }

  /**
   * The merge ref of a branch is read from the argument-less key, so a configured
   * `branch.<name>.merge` is not picked up (unless the name is `%!s(MISSING)` itself).
   */
  lemma MergeReadFromMissingKey(name: string, merge: string)
    requires '.' !in name && name != "%!s(MISSING)"
    ensures var config := map["branch." + name + ".merge" := merge];
      name in Built(config, []).branches && Built(config, []).branches[name].merge == ""
  {
    var config := map["branch." + name + ".merge" := merge];
    MergeKeyDeclares(name, merge);
    MergeKeyDiffers(name);
    ConfigBranchesContents(config);
    LoadedBranchesContents(config, []);
  }

  /** The key `branch.<name>.merge` declares the branch `name`. */
  lemma MergeKeyDeclares(name: string, merge: string)
    requires '.' !in name
    ensures var key := "branch." + name + ".merge";
      key in map[key := merge] && IsSectionKey(key, "branch") && NameOf(key) == name
  {
    KeyFields("branch", name, "merge");
    var key := "branch" + "." + name + "." + "merge";
    assert key == "branch." + name + ".merge";
  }

  /** The per-branch merge key differs from the key the builder reads, for every other name. */
  lemma MergeKeyDiffers(name: string)
    requires name != "%!s(MISSING)"
    ensures "branch." + name + ".merge" != MissingMergeKey
  {
    var key := "branch." + name + ".merge";
    var missing := MissingMergeKey;
    assert missing[7..|missing| - 6] == "%!s(MISSING)";
    assert key[7..|key| - 6] == name;
  }

  /** Directories and a ref file spelled HEAD in any case add no branch. */
  lemma HeadAndDirectoriesSkipped()
    ensures Built(map[], [DirEntry("Head", false), DirEntry("main", false), DirEntry("feature", true)]).branches.Keys
            == {"main"}
  {
    var listing := [DirEntry("Head", false), DirEntry("main", false), DirEntry("feature", true)];
    UpperIsHead("Head");
    UpperIsHead("main");
    assert RefNames(listing) == {"main"};
    LoadedBranchesContents(map[], listing);
  }
}
