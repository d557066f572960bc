# ggit ticket resolution, modelled in Dafny

`ggit` is a small command-line helper for git repositories. It reads the repository's
configuration and the list of local branch ref files, builds a model of the repository (its
remotes and branches), and for the `ticket` command turns a branch into the URL of the issue
ticket named in the branch name and opens it.

This project models that core and proves properties of it:

- `wrappers.dfy`: module `Wrappers`, the `Option` type.
- `gostrings.dfy`: module `GoStrings`, the parts of Go's `strings` and `fmt` packages the tool relies
  on. It has `strings.Split` on "." with its inverse `Join`, an ASCII `strings.ToUpper`,
  `strings.TrimPrefix`, `strings.TrimSpace`, and `fmt.Sprintf` for formats whose only verb is `%s`.
  The `Sprintf` model covers `%!s(MISSING)` and `%!(EXTRA ...)`.
- `repo.dfy`: module `Repository`, which holds the `Remote`, `Branch` and `Repo` values and the
  builder `LoadRepo`. The two loops of `LoadRepo` insert into the remote and branch maps. They are
  the methods `CollectConfig` (over the configuration keys) and `AddRefBranches` (over the ref
  listing). Their results are tied to specification functions of the configuration and the listing.
- `ticket.dfy`: module `Ticket`, which holds the provider tables, the ticket pattern
  `(ABR-\d{6})`, the classifier `GetRemoteType` and the resolver `OpenTicketForBranch`. The
  resolver returns an `Outcome` instead of logging and running `open`.
- `head.dfy`: module `Head`, which gets the current branch from the contents of `.git/HEAD`.
- `scenarios.dfy`: module `Scenarios`, worked examples that start from a configuration and end at
  the resolution outcome.

Go iterates over a map in an unspecified order. `LoadRepo` therefore takes the configuration keys
as a sequence `keys` that lists exactly the keys of the configuration. Its postcondition does not
mention `keys`, so the built repository is the same for every iteration order.

The hostname parser (`giturls.Parse` followed by `Hostname()`) is a parameter
`hostname: string -> Option<string>` of the classifier and the resolver. `None` stands for a parse
error.

Behaviour kept exactly as the code has it:

- The merge ref is read from the key that `fmt.Sprintf("branch.%s.merge")` produces with no
  argument. That key is `branch.%!s(MISSING).merge`. So every branch gets the same merge value, and
  a configured `branch.<name>.merge` is ignored (`Scenarios.MergeReadFromMissingKey`).
- The ticket URL is the format applied to the whole branch name, not to the matched ticket
  (`Ticket.ResolutionOpens`). The matched ticket is only logged. The model returns it beside the URL.
- A remote named by a branch but not configured has the URL "". That URL is handed to the parser;
  it is not classified as unset. Only an empty remote name is `Notset`.
- An unknown host gives its own outcome, `UnknownRemote`. A known provider without a ticket rule
  (GitHub) gives `NoRule`.
- `Remote` has only `url` and `fetch`; the name is the map key.
- Names are the second dotted field of a key, so `branch.a.b.remote` declares branch `a`.
- Ref entries that are directories are skipped, as well as any spelling of `HEAD`.

## Model

| member | source | states |
|---|---|---|
| `GoStrings.Split` | main.go:83 | There is always at least one field, no field contains a dot, and there is a second field exactly when the key contains a dot. |
| `GoStrings.JoinSplit` | main.go:83 | Joining the fields of a key with "." gives the key back. |
| `GoStrings.SplitJoin` | main.go:83 | Splitting dot-free fields joined with "." gives the same fields back. |
| `GoStrings.ToUpperAscii` | main.go:110 | The result has the length of the input and no lower-case ASCII letter. Lower-case ASCII letters become their upper-case letter; every other character is kept. |
| `GoStrings.UpperIsHead` | main.go:110 | A ref name upper-cases to "HEAD" exactly when it is one of the sixteen case spellings of "head". |
| `GoStrings.TrimPrefix` | main.go:46 | When the prefix is present, prefix + result is the input. Otherwise the input is returned unchanged. |
| `GoStrings.TrimSpace` | main.go:46 | The result has no white space at either end, is no longer than the input, and is empty for all-space input. |
| `GoStrings.TrimSpaceSurrounded` | main.go:46 | Trimming space + body + space, where the body has non-space ends, gives exactly the body. |
| `GoStrings.SprintfLiteral` | main.go:164 | A format with no verb prints itself, followed by `%!(EXTRA string=…)` for the arguments given; with no argument it prints itself alone. |
| `GoStrings.SprintfOneVerb` | main.go:89 | A format of literal + `%s` + literal with one argument gives the argument between the two literals. |
| `GoStrings.SprintfMissingVerb` | main.go:96 | The same format with no argument prints `%!s(MISSING)` in place of the verb. |
| `Repository.Get` | main.go:89-96 | Indexing the configuration gives the value stored under a present key, and a non-empty result only comes from a present key; an absent key gives Go's zero value "". |
| `Repository.UrlKey` | main.go:89 | The url key formatted for a name is `remote.<name>.url`. |
| `Repository.FetchKey` | main.go:89 | The fetch key formatted for a name is `remote.<name>.fetch`. |
| `Repository.BranchRemoteKey` | main.go:96 | The remote key formatted for a branch is `branch.<name>.remote`. |
| `Repository.MergeKey` | main.go:96 | The merge key, formatted with no argument, is the literal `branch.%!s(MISSING).merge`. |
| `Repository.RemoteFor` | main.go:89 | The remote made for a name has the url under `remote.<name>.url` and the fetch under `remote.<name>.fetch`. A missing key gives "". |
| `Repository.BranchFor` | main.go:96 | The branch made for a name carries that name and the remote under `branch.<name>.remote`. Its merge ref is read from `branch.%!s(MISSING).merge`. |
| `Repository.ConfigRemotesContents` | main.go:85-91 | Each remote key's name has an entry holding that name's url and fetch values. Every entry comes from some remote key. |
| `Repository.ConfigBranchesContents` | main.go:92-98 | Each branch key's name has an entry with that name, remote and merge. Every entry comes from some branch key. |
| `Repository.RemotesStep` | main.go:86-90 | First seen wins: visiting another key adds its remote only when the name is absent and changes nothing else. |
| `Repository.BranchesStep` | main.go:93-97 | First seen wins for branches, in the same way. |
| `Repository.WithRefsStep` | main.go:105-116 | Another listing entry adds a bare branch only when it is a ref branch whose name is absent. |
| `Repository.LoadedBranchesContents` | main.go:105-117 | Configured branches stay unchanged. Each listed plain file not spelled HEAD and absent from the configuration becomes `Branch(name, "", "")`. No other name appears. Each branch is stored under its own name. |
| `Repository.VisitKey` | main.go:83-98 | Visiting one more key turns the remotes and branches built from the keys seen so far into those built from the keys seen plus this one: the name it declares is added only when absent. |
| `Repository.CollectConfig` | main.go:81-100 | For any order of visiting the keys, the remote map built is exactly the configuration's remotes and the branch map exactly its branches. |
| `Repository.AddRefBranches` | main.go:105-117 | The result is the given branches plus a bare branch for each listed plain file not spelled HEAD and not already present. |
| `Repository.LoadRepo` | main.go:81-118 | For any order of visiting the keys, the remotes are those of the configuration, and the branches are those of the configuration plus the bare ref branches. |
| `Ticket.FindFrom` | main.go:158-162 | The result is the leftmost index at or after the start where the pattern matches, or None when it matches nowhere there. |
| `Ticket.FindTicket` | main.go:158-162 | A match is found exactly when the unanchored pattern occurs in the name, and the match found is the leftmost. |
| `Ticket.RemoteUrl` | main.go:174 | The url of a configured remote is its configured url, and a non-empty url only comes from a configured remote; a remote not configured gives "". |
| `Ticket.GetRemoteType` | main.go:170-198 | The result is Notset exactly for an empty remote name. It is Acronis or Github exactly when the URL parses to `git.acronis.com` or `github.com`. Otherwise, including a parse failure, it is Unknown. |
| `Ticket.ResolveWithAcronisRule` | main.go:148-164 | For a present branch whose remote is Acronis or unset, the outcome is `NoTicket` without a match, and otherwise the browse URL of the whole name with the leftmost ticket. |
| `Ticket.AcronisFormat` | main.go:204-206 | The Acronis format applied to a branch gives the browse prefix followed by the branch. |
| `Ticket.OpenTicketForBranch` | main.go:137-168 | The outcome is `BranchNotFound` exactly for a branch not in the repository and `UnknownRemote` exactly for a present branch whose remote type is Unknown. The only provider without a ticket rule is GitHub. An opened URL is the browse prefix followed by the whole branch name, and the logged ticket has the length of a match of `ABR-` and six digits. `ResolutionSkips` and `ResolutionOpens` give the full case split. |
| `Ticket.ResolutionSkips` | main.go:137-161 | These give no URL: a missing branch, an Unknown remote, a GitHub remote (no rule), and an Acronis or unset remote on a name with no `ABR-` plus six ASCII digits. |
| `Ticket.ResolutionOpens` | main.go:148-166 | A URL is opened exactly for a present branch whose remote type is Acronis or Notset and whose name contains a ticket. The URL is `https://pmc.acronis.com/browse/` + the whole name. The ticket is the leftmost match. |
| `Ticket.TicketRoundTrip` | main.go:158-164 | Placing a ticket anywhere in a branch name opens the browse URL of the whole name. When no earlier ticket exists, the logged ticket is the one placed. |
| `Head.BranchFromHead` | main.go:45-46 | A HEAD not starting with "ref:" gives "". Otherwise the result has no white space at either end. |
| `Head.HeadRoundTrip` | main.go:45-46 | Writing `ref: refs/heads/<name>` plus trailing white space and reading it back gives the name. |
| `Scenarios.TrackedBranchRemote` | main.go:81-98 | In a configuration with one remote and one branch tracking it, the built branch tracks that remote, and the remote has the configured URL. |
| `Scenarios.GithubHasNoRule` | main.go:153-156 | A branch tracking a GitHub remote resolves to `NoRule(Github)`. |
| `Scenarios.AcronisOpensWholeName` | main.go:158-164 | A branch `ABR-<6 digits><rest>` tracking an Acronis remote opens the browse URL of the whole name. The logged ticket is `ABR-<digits>`. |
| `Scenarios.TicketFirstOpens` | main.go:158-164 | A branch name that starts with a ticket, on an Acronis remote, opens the browse URL of the whole name. |
| `Scenarios.UnlistedHostIsUnknown` | main.go:143-147 | A branch tracking a remote on an unlisted host resolves to `UnknownRemote`. |
| `Scenarios.RefOnlyBranchWithoutTicket` | main.go:148-161 | The branch `hotfix`, known only from its ref file, is taken for Acronis and resolves to `NoTicket`. |
| `Scenarios.MergeReadFromMissingKey` | main.go:96 | A configured `branch.<name>.merge` is not read. The branch's merge ref stays "". |
| `Scenarios.MergeKeyDiffers` | main.go:96 | The per-branch merge key differs from the key that is read, for every name except `%!s(MISSING)`. |
| `Scenarios.HeadAndDirectoriesSkipped` | main.go:105-112 | From the listing `Head`, `main` and directory `feature`, only `main` becomes a branch. |

## Left out

- Reading `.git/config`, `.git/refs/heads` and `.git/HEAD`, along with their error paths (missing
  repository, read failure, directory listing failure). These are file I/O. The model starts from
  the parsed configuration map, the listing, and the HEAD file contents.
- `goconfig.Parse`, an external configuration parser whose grammar is outside this model. Its
  parse error path is left out with it.
- `giturls.Parse` and `Hostname()`, an external URL parser. It is the abstract `hostname` parameter.
- The general `regexp` engine. Only the fixed pattern `(ABR-\d{6})` is modelled, as a literal
  followed by ASCII digits.
- Running `open` on the URL, `panic`, `os.Exit`, all log output and verbosity, and `flag`/`os.Args`
  command dispatch (`info`, `ticket [branch]`). These are process glue. The resolver returns an
  `Outcome` instead.
- Go panics are excluded by preconditions, not modelled. `LoadRepo` requires every `remote`/`branch`
  key to have a second field, as the code indexes `vals[1]` unchecked.
  `BranchFromHead` requires at least four characters, as the code slices `[:4]` unchecked. Go's
  slice needs only four bytes, so a HEAD of fewer than four characters that is still four bytes
  long (for instance two 2-byte characters), for which Go returns "", is outside the model.
- GoStrings.Sprintf: only formats whose verbs are all `%s` are modelled, which are the only ones
  the tool uses. The function has no postcondition of its own; its behaviour is stated by
  `SprintfLiteral`, `SprintfOneVerb` and `SprintfMissingVerb`.
- GoStrings.TrimSpace: white space is taken as Go's `unicode.IsSpace` in the Latin-1 range only.
  The other Unicode space separators are not treated as space.
- GoStrings.ToUpperAscii: upper-casing is ASCII only. Unicode case mappings are not modelled.
- Strings are sequences of characters, not UTF-8 bytes.
