/**
 * Ticket resolution: which hosting provider a branch's remote belongs to (`getRemoteType`), and
 * which ticket URL a branch name resolves to (`openTicketForBranch`), over the tool's fixed tables.
 */
module Ticket {
  import opened Wrappers
  import opened GoStrings
  import opened Repository

  /** The provider categories: two known providers, a remote on an unlisted host, no remote. */
  datatype RemoteType = Acronis | Github | Unknown | Notset

  /** Hostname to provider. */
  const RemoteTypes: map<string, RemoteType> := map["git.acronis.com" := Acronis, "github.com" := Github]

  /**
   * A ticket pattern: `literal` followed by `digits` ASCII digits, matched anywhere in the text.
   * The only rule of the tool, the regular expression `(ABR-\d{6})`, is `Pattern("ABR-", 6)`:
   * RE2's `\d` is the ASCII digits only.
   */
  datatype Pattern = Pattern(literal: string, digits: nat)

  /** The Acronis ticket pattern, `(ABR-\d{6})`. */
  const AcronisTicket := Pattern("ABR-", 6)

  /** Provider to ticket pattern: only Acronis has one. */
  const TicketPatterns: map<RemoteType, Pattern> := map[Acronis := AcronisTicket]

  /** The URL every Acronis ticket URL starts with; the format puts the whole branch name after it. */
  const AcronisBrowse := "https://pmc.acronis.com/browse/"

  /** Provider to ticket URL format. */
  const TicketFormats: map<RemoteType, string> := map[Acronis := AcronisBrowse + "%s"]

  // ---------------------------------------------------------------------------------------------
  // Pattern matching

  predicate IsAsciiDigit(c: char)
  {
    '0' <= c <= '9'
  }

  function MatchLength(p: Pattern): nat
  {
    |p.literal| + p.digits
  }

  /** The pattern matches `s` at index `i`. */
  predicate MatchesAt(p: Pattern, s: string, i: nat)
  {
    && i + MatchLength(p) <= |s|
    && s[i..i + |p.literal|] == p.literal
    && forall j :: i + |p.literal| <= j < i + MatchLength(p) ==> IsAsciiDigit(s[j])
  }

  /** The pattern matches somewhere in `s` (the expression is not anchored). */
  ghost predicate Contains(p: Pattern, s: string)
  {
    exists i :: 0 <= i <= |s| && MatchesAt(p, s, i)
  }

  /** The leftmost index at or after `start` where the pattern matches, None when there is none. */
  function FindFrom(p: Pattern, s: string, start: nat): (r: Option<nat>)
    requires start <= |s|
    ensures r.Some? ==> start <= r.value && MatchesAt(p, s, r.value)
    ensures r.Some? ==> forall j :: start <= j < r.value ==> !MatchesAt(p, s, j)
    ensures r.None? ==> forall j :: start <= j <= |s| ==> !MatchesAt(p, s, j)
    decreases |s| - start
  {
    if MatchesAt(p, s, start) then Some(start)
    else if start == |s| then None
    else FindFrom(p, s, start + 1)
  }

  /** Where the leftmost match of the pattern in `s` starts: Go's `FindStringSubmatchIndex`. */
  function FindTicket(p: Pattern, s: string): (r: Option<nat>)
    ensures r.Some? <==> Contains(p, s)
    ensures r.Some? ==> MatchesAt(p, s, r.value) && forall j :: 0 <= j < r.value ==> !MatchesAt(p, s, j)
  {
    FindFrom(p, s, 0)
  }

  // ---------------------------------------------------------------------------------------------
  // Classification

  /**
   * The hostname the URL parser finds in a remote URL, None when the URL does not parse. The parser
   * is outside this model, so this is a parameter of every operation that needs it.
   */
  type HostnameOf = string -> Option<string>

  /** Go's `r.Remotes[remote].Url`: the url of the named remote, "" for a remote not configured. */
  function RemoteUrl(r: Repo, remote: string): (u: string)
    ensures remote in r.remotes ==> u == r.remotes[remote].url
    ensures u != "" ==> remote in r.remotes
  {
    if remote in r.remotes then r.remotes[remote].url else ""
  }

  /**
   * The provider of the named remote: Notset exactly when no remote is named; Acronis or Github
   * exactly when the remote's URL parses to that provider's host; Unknown otherwise.
   */
  function GetRemoteType(r: Repo, remote: string, hostname: HostnameOf): (t: RemoteType)
    ensures t == Notset <==> remote == ""
    ensures t == Acronis <==> remote != "" && hostname(RemoteUrl(r, remote)) == Some("git.acronis.com")
    ensures t == Github <==> remote != "" && hostname(RemoteUrl(r, remote)) == Some("github.com")
    ensures t == Unknown <==>
      && remote != ""
      && (hostname(RemoteUrl(r, remote)).None?
          || hostname(RemoteUrl(r, remote)).value !in {"git.acronis.com", "github.com"})
  {
    if remote == "" then Notset
    else
      match hostname(RemoteUrl(r, remote))
      case None => Unknown
      case Some(host) => if host in RemoteTypes then RemoteTypes[host] else Unknown
  }

  // ---------------------------------------------------------------------------------------------
  // Resolution

  /**
   * What resolving a branch comes to: one of four explanatory skips, or the ticket URL to open
   * together with the matched ticket text (which the tool only logs).
   */
  datatype Outcome =
    | BranchNotFound
    | UnknownRemote
    | NoRule(remoteType: RemoteType)
    | NoTicket
    | Open(url: string, ticket: string)

  /** The ticket URL format is well formed for `Sprintf` and puts its argument after the prefix. */
  lemma AcronisFormat(branch: string)
    ensures OnlyStringVerbs(TicketFormats[Acronis])
    ensures Sprintf(TicketFormats[Acronis], [branch]) == AcronisBrowse + branch
  {
    SprintfOneVerb(AcronisBrowse, "", branch);
    assert TicketFormats[Acronis] == AcronisBrowse + "%s" + "";
    assert AcronisBrowse + branch + "" == AcronisBrowse + branch;
  }

  /**
   * `openTicketForBranch`: look the branch up, classify its remote, fall back to Acronis when no
   * remote is set, and format the ticket URL from the whole branch name when the provider's
   * pattern occurs in it.
   */
  function OpenTicketForBranch(r: Repo, branch: string, hostname: HostnameOf): (o: Outcome)
    ensures o == BranchNotFound <==> branch !in r.branches
    ensures o == UnknownRemote <==>
      branch in r.branches && GetRemoteType(r, r.branches[branch].remote, hostname) == Unknown
    ensures o.NoRule? ==> o.remoteType == Github
    ensures o.Open? ==> o.url == AcronisBrowse + branch && |o.ticket| == MatchLength(AcronisTicket)
  {
    if branch !in r.branches then BranchNotFound
    else
      var remoteType := GetRemoteType(r, r.branches[branch].remote, hostname);
      if remoteType == Unknown then UnknownRemote
      else
        var effective := if remoteType == Notset then Acronis else remoteType;
        if effective !in TicketPatterns then NoRule(effective)
        else
          var p := TicketPatterns[effective];
          match FindTicket(p, branch)
          case None => NoTicket
          case Some(i) =>
            assert effective == Acronis;
            AcronisFormat(branch);
            var format := if effective in TicketFormats then TicketFormats[effective] else "";
            Open(Sprintf(format, [branch]), branch[i..i + MatchLength(p)])
  }

  /**
   * Resolution skips, with no URL: for a branch not in the repository, for a remote on an unknown
   * host or that does not parse, for a GitHub remote (no ticket rule), and for a branch whose name
   * holds no "ABR-" followed by six ASCII digits.
   */
  lemma ResolutionSkips(r: Repo, branch: string, hostname: HostnameOf)
    ensures branch !in r.branches ==> OpenTicketForBranch(r, branch, hostname) == BranchNotFound
    ensures branch in r.branches ==>
      var t := GetRemoteType(r, r.branches[branch].remote, hostname);
      && (t == Unknown ==> OpenTicketForBranch(r, branch, hostname) == UnknownRemote)
      && (t == Github ==> OpenTicketForBranch(r, branch, hostname) == NoRule(Github))
      && (t in {Acronis, Notset} && !Contains(AcronisTicket, branch) ==>
            OpenTicketForBranch(r, branch, hostname) == NoTicket)
  {
  }

  /**
   * Resolution opens a URL exactly for a repository branch whose remote is unset or on the Acronis
   * host and whose name contains an Acronis ticket; the URL is the browse prefix followed by the
   * WHOLE branch name, and the ticket is the leftmost match.
   */
  lemma ResolutionOpens(r: Repo, branch: string, hostname: HostnameOf)
    ensures var o := OpenTicketForBranch(r, branch, hostname);
      o.Open? <==>
        && branch in r.branches
        && GetRemoteType(r, r.branches[branch].remote, hostname) in {Acronis, Notset}
        && Contains(AcronisTicket, branch)
    ensures var o := OpenTicketForBranch(r, branch, hostname);
      o.Open? ==>
        && o.url == AcronisBrowse + branch
        && exists i :: 0 <= i <= |branch| && MatchesAt(AcronisTicket, branch, i)
             && (forall j :: 0 <= j < i ==> !MatchesAt(AcronisTicket, branch, j))
             && o.ticket == branch[i..i + MatchLength(AcronisTicket)]
  {
    if branch in r.branches && GetRemoteType(r, r.branches[branch].remote, hostname) in {Acronis, Notset} {
      ResolveWithAcronisRule(r, branch, hostname);
    }
  }

  /** On an unset or Acronis remote, resolution comes down to the leftmost Acronis ticket. */
  lemma ResolveWithAcronisRule(r: Repo, branch: string, hostname: HostnameOf)
    requires branch in r.branches
    requires GetRemoteType(r, r.branches[branch].remote, hostname) in {Acronis, Notset}
    ensures OpenTicketForBranch(r, branch, hostname)
         == match FindTicket(AcronisTicket, branch)
            case None => NoTicket
            case Some(i) => Open(AcronisBrowse + branch, branch[i..i + MatchLength(AcronisTicket)])
  {
    assert TicketPatterns[Acronis] == AcronisTicket;
    AcronisFormat(branch);
  }

  /**
   * A branch named `before` + a ticket + `after`, with an unset or Acronis remote, opens the
   * browse URL of the whole name; when nothing in `before` already starts a ticket, the ticket
   * found is the one placed there.
   */
  lemma {:induction false} TicketRoundTrip(r: Repo, hostname: HostnameOf, before: string, digits: string, after: string)
    requires |digits| == 6 && forall k :: 0 <= k < 6 ==> IsAsciiDigit(digits[k])
    requires before + "ABR-" + digits + after in r.branches
    requires GetRemoteType(r, r.branches[before + "ABR-" + digits + after].remote, hostname) in {Acronis, Notset}
    ensures var branch := before + "ABR-" + digits + after;
      OpenTicketForBranch(r, branch, hostname).Open?
      && OpenTicketForBranch(r, branch, hostname).url == AcronisBrowse + branch
    ensures var branch := before + "ABR-" + digits + after;
      (forall j :: 0 <= j < |before| ==> !MatchesAt(AcronisTicket, branch, j)) ==>
        OpenTicketForBranch(r, branch, hostname).ticket == "ABR-" + digits
  {
    var branch := before + "ABR-" + digits + after;
    PlacedTicketMatches(before, digits, after);
    ResolveWithAcronisRule(r, branch, hostname);
  }

  /** A ticket placed after `before` matches there, and the text matched is the ticket. */
  lemma PlacedTicketMatches(before: string, digits: string, after: string)
    requires |digits| == 6 && forall k :: 0 <= k < 6 ==> IsAsciiDigit(digits[k])
    ensures var branch := before + "ABR-" + digits + after;
      && MatchesAt(AcronisTicket, branch, |before|)
      && branch[|before|..|before| + MatchLength(AcronisTicket)] == "ABR-" + digits
  {
    var branch := before + "ABR-" + digits + after;
    var i := |before|;
    assert branch[i..i + 4] == "ABR-";
    assert branch[i + 4..i + 10] == digits;
    assert branch[i..i + 10] == "ABR-" + digits;
  }
}
