/**
 * The current branch as the `ticket` command derives it from the contents of `.git/HEAD`, when no
 * branch is named on the command line.
 */
module Head {
  import opened GoStrings

  /** The prefix a symbolic HEAD carries before a local branch name. */
  const HeadsPrefix := "ref: refs/heads/"

  /**
   * A HEAD starting with "ref:" names a branch: the text without the heads prefix, white space
   * trimmed. Any other HEAD (a detached commit id) leaves the branch empty. The Go code slices the
   * first four bytes unchecked, so the file must hold at least four.
   */
  function BranchFromHead(data: string): (branch: string)
    requires |data| >= 4
    ensures !HasPrefix(data, "ref:") ==> branch == ""
    ensures Trimmed(branch)
    ensures |branch| <= |data|
  {
    if data[..4] == "ref:" then TrimSpace(TrimPrefix(data, HeadsPrefix)) else ""
  }

  /**
   * Writing a branch name as a symbolic HEAD, with any trailing white space (git ends the line
   * with a newline), and reading it back gives the name.
   */
  lemma HeadRoundTrip(name: string, trailing: string)
    requires Trimmed(name) && AllSpace(trailing)
    ensures |HeadsPrefix + name + trailing| >= 4
    ensures BranchFromHead(HeadsPrefix + name + trailing) == name
  {
    var data := HeadsPrefix + name + trailing;
    assert data[..4] == "ref:";
    assert data[..|HeadsPrefix|] == HeadsPrefix;
    assert TrimPrefix(data, HeadsPrefix) == name + trailing;
    TrimSpaceSurrounded("", name, trailing);
    assert "" + name + trailing == name + trailing;
  }
}
