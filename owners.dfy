/**
 * File ownership (internal/provider/ssh/ssh_client.go, `FileOwnership`,
 * `GetFileOwnership`, `SetFileOwnership`): the fields read from `ls -ldn`
 * and the owner and group a `chown` sets.
 */
module Owners {
  import opened Results
  import opened Text

  datatype FileOwnership = FileOwnership(user: string, group: string)

  /** The numeric owner and group of a listing. */
  datatype OwnerIds = OwnerIds(uid: string, gid: string)

  /**
   * The uid and gid in `ls -ldn` output: its third and fourth
   * white-space-separated fields; none when there are fewer than four.
   */
  function ParseLsIds(output: string): (r: Option<OwnerIds>)
    ensures r.None? <==> |Fields(output)| < 4
    ensures r.Some? ==> IsWord(r.value.uid) && IsWord(r.value.gid)
  {
    var fields := Fields(output);
    if |fields| < 4 then None else Some(OwnerIds(fields[2], fields[3]))
  }

  /**
   * An `ls -ldn` line (mode, link count, uid, gid, then size, date and name),
   * however its columns are padded and whatever white space ends it, yields
   * its third and fourth words as uid and gid; with fewer than four words
   * there are none.
   */
  lemma LsIdsOfListing(ws: seq<string>, gaps: seq<string>)
    requires AllWords(ws) && IsGaps(ws, gaps)
    ensures ParseLsIds(Layout(ws, gaps)) == if |ws| < 4 then None else Some(OwnerIds(ws[2], ws[3]))
  {
    FieldsOfLayout(ws, gaps);
  }

  /** Which halves of an ownership request `SetFileOwnership` has to fill in from the file. */
  predicate NeedsLookup(want: FileOwnership) {
    (want.user == "") != (want.group == "")
  }

  /**
   * The owner and group `chown` is given for a request: the requested halves,
   * and for an empty half the file's current one.
   */
  function ChownTarget(want: FileOwnership, current: FileOwnership): (r: FileOwnership)
    requires want.user != "" || want.group != ""
    ensures r.user == if want.user != "" then want.user else current.user
    ensures r.group == if want.group != "" then want.group else current.group
  {
    if want.user != "" && want.group != "" then want
    else if want.user != "" then FileOwnership(want.user, current.group)
    else FileOwnership(current.user, want.group)
  }
}
