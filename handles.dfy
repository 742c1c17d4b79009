/** Telegram handles as they appear at the end of a reminder message. */
module Handles {

  /** The prefix that marks a Telegram handle. */
  const At: char := '@'

  /**
   * Normalises a stored Telegram username for display: an empty username
   * yields an empty suffix, a username that already carries the prefix is
   * kept, and any other username gains exactly one prefix.
   */
  function FormatUsername(username: string): (r: string)
    ensures r == [] <==> username == []
    ensures r != [] ==> r[0] == At
    ensures username != [] && username[0] == At ==> r == username
    ensures r == username || r == [At] + username
  {
    if username == [] then []
    else if username[0] == At then username
    else [At] + username
  }

  /** Formatting a handle that is already formatted changes nothing. */
  lemma FormatUsernameIdempotent(username: string)
    ensures FormatUsername(FormatUsername(username)) == FormatUsername(username)
  {
  }

  /**
   * A username typed with or without its prefix is displayed the same way,
   * so the stored form need not carry the prefix.
   */
  lemma FormatUsernameIgnoresPrefix(username: string)
    requires username != [] && username[0] != At
    ensures FormatUsername([At] + username) == FormatUsername(username)
  {
  }

  /** A formatted handle never starts with two prefixes unless the stored username did. */
  lemma FormatUsernameAddsAtMostOnePrefix(username: string)
    ensures |FormatUsername(username)| <= |username| + 1
    ensures |FormatUsername(username)| >= 2 && FormatUsername(username)[1] == At ==>
              |username| >= 2 && username[0] == At && username[1] == At
  {
  }
}
