/**
 * Extended file attributes (internal/provider/ssh/ssh_client.go,
 * `FileAttributes`, `GetFileAttributes`, `SetFileAttributes`): the eight
 * `chattr` flags, the parsing of `lsattr -d` output, and the add/remove diff.
 */
module Attrs {

  datatype FileAttributes = FileAttributes(
    immutable: bool,   // i
    appendOnly: bool,  // a
    noDump: bool,      // d
    synchronous: bool, // S
    noAtime: bool,     // A
    compressed: bool,  // c
    noCoW: bool,       // C
    undeletable: bool) // u

  const NoAttributes := FileAttributes(false, false, false, false, false, false, false, false)

  /** The flag letters, in the order `SetFileAttributes` lists and issues them. */
  const FlagOrder: string := "iadSAcCu"

  predicate IsFlag(c: char) {
    c in FlagOrder
  }

  /** The position of a flag letter in `FlagOrder`. */
  function FlagIndex(c: char): (k: nat)
    requires IsFlag(c)
    ensures k < |FlagOrder| && FlagOrder[k] == c
  {
    if c == 'i' then 0 else if c == 'a' then 1 else if c == 'd' then 2 else if c == 'S' then 3
    else if c == 'A' then 4 else if c == 'c' then 5 else if c == 'C' then 6 else 7
  }

  /** The letters of `FlagOrder` are distinct: each one's index is its position. */
  lemma FlagIndexOf(k: nat)
    requires k < |FlagOrder|
    ensures IsFlag(FlagOrder[k]) && FlagIndex(FlagOrder[k]) == k
  {
  }

  /** The attribute a letter stands for; false for a letter that is no flag. */
  function Flag(a: FileAttributes, c: char): bool {
    match c
    case 'i' => a.immutable
    case 'a' => a.appendOnly
    case 'd' => a.noDump
    case 'S' => a.synchronous
    case 'A' => a.noAtime
    case 'c' => a.compressed
    case 'C' => a.noCoW
    case 'u' => a.undeletable
    case _ => false
  }

  /** Two attribute sets that agree on every flag are equal. */
  lemma FlagsDetermine(a: FileAttributes, b: FileAttributes)
    requires forall k :: 0 <= k < |FlagOrder| ==> Flag(a, FlagOrder[k]) == Flag(b, FlagOrder[k])
    ensures a == b
  {
    assert Flag(a, FlagOrder[0]) == Flag(b, FlagOrder[0]);
    assert Flag(a, FlagOrder[1]) == Flag(b, FlagOrder[1]);
    assert Flag(a, FlagOrder[2]) == Flag(b, FlagOrder[2]);
    assert Flag(a, FlagOrder[3]) == Flag(b, FlagOrder[3]);
    assert Flag(a, FlagOrder[4]) == Flag(b, FlagOrder[4]);
    assert Flag(a, FlagOrder[5]) == Flag(b, FlagOrder[5]);
    assert Flag(a, FlagOrder[6]) == Flag(b, FlagOrder[6]);
    assert Flag(a, FlagOrder[7]) == Flag(b, FlagOrder[7]);
  }

  /**
   * The attributes read from `lsattr -d` output: none when the output is
   * shorter than 16 characters, otherwise a flag is set exactly when its
   * letter occurs among the first 16 characters.
   */
  function ParseLsattr(output: string): (r: FileAttributes)
    ensures |output| < 16 ==> r == NoAttributes
    ensures |output| >= 16 ==> forall k :: 0 <= k < |FlagOrder| ==> Flag(r, FlagOrder[k]) == (FlagOrder[k] in output[..16])
  {
    if |output| < 16 then NoAttributes
    else
      var f := output[..16];
      FileAttributes('i' in f, 'a' in f, 'd' in f, 'S' in f, 'A' in f, 'c' in f, 'C' in f, 'u' in f)
  }

  /**
   * The first 16 columns of an `lsattr` flag field, in e2fsprogs' order, each
   * column its own letter; newer versions print further columns after these.
   */
  const LsattrColumns: string := "suSDiadAcEjItTeC"

  /**
   * An `lsattr` flag field for a file whose tracked flags are those of `a`:
   * at least 16 columns; among the first 16, a tracked column (the undeletable
   * flag 'u' is column 1, no-copy-on-write 'C' column 15) shows its letter when
   * that flag is set and '-' otherwise, and every other column shows anything
   * but a tracked flag letter. The columns after the 16th are unconstrained.
   */
  predicate IsLsattrField(a: FileAttributes, field: string) {
    && |field| >= 16
    && forall j :: 0 <= j < 16 ==>
         if IsFlag(LsattrColumns[j]) then field[j] == (if Flag(a, LsattrColumns[j]) then LsattrColumns[j] else '-')
         else !IsFlag(field[j])
  }

  lemma ColumnOfFlag(c: char) returns (j: nat)
    requires IsFlag(c)
    ensures j < 16 && LsattrColumns[j] == c
    ensures forall i :: 0 <= i < 16 && LsattrColumns[i] == c ==> i == j
  {
    j := if c == 'u' then 1 else if c == 'S' then 2 else if c == 'i' then 4 else if c == 'a' then 5
      else if c == 'd' then 6 else if c == 'A' then 7 else if c == 'c' then 8 else 15;
  }

  /**
   * Parsing an `lsattr` line, a flag field for `a` followed by anything (the
   * path and the newline), gives back `a`.
   */
  lemma {:induction false} ParseLsattrLine(a: FileAttributes, field: string, rest: string)
    requires IsLsattrField(a, field)
    ensures ParseLsattr(field + rest) == a
  {
    var line := field + rest;
    var r := ParseLsattr(line);
    var f := line[..16];
    assert forall j :: 0 <= j < 16 ==> f[j] == field[j];
    forall k | 0 <= k < |FlagOrder|
      ensures Flag(r, FlagOrder[k]) == Flag(a, FlagOrder[k])
    {
      var c := FlagOrder[k];
      var j := ColumnOfFlag(c);
      assert f[j] == (if Flag(a, c) then c else '-');
      if c in f {
        var i :| 0 <= i < 16 && f[i] == c;
        assert IsFlag(LsattrColumns[i]);
        assert LsattrColumns[i] == c;
      }
    }
    FlagsDetermine(r, a);
  }

  /** A 22-column field from a current e2fsprogs for an ext4 file with only the extents flag 'e'. */
  lemma ExtentsOnlyField()
    ensures IsLsattrField(NoAttributes, "--------------e-------")
  {
  }

  /**
   * The letters among the first `n` of `FlagOrder` whose flag must be
   * switched to `want`: those where `desired` has `want` and `current` does not.
   */
  function Diff(want: bool, desired: FileAttributes, current: FileAttributes, n: nat): (r: string)
    requires n <= |FlagOrder|
    ensures forall c :: c in r <==> c in FlagOrder[..n] && Flag(desired, c) == want && Flag(current, c) != want
    ensures forall i :: 0 <= i < |r| ==> IsFlag(r[i]) && FlagIndex(r[i]) < n
    ensures forall i, j :: 0 <= i < j < |r| ==> FlagIndex(r[i]) < FlagIndex(r[j])
  {
    if n == 0 then ""
    else
      var prev := Diff(want, desired, current, n - 1);
      var c := FlagOrder[n - 1];
      FlagIndexOf(n - 1);
      assert FlagOrder[..n] == FlagOrder[..n - 1] + [c];
      prev + if Flag(desired, c) == want && Flag(current, c) != want then [c] else []
  }

  /** The letters passed to `chattr +`: set in `desired`, clear in `current`, in `FlagOrder`. */
  function Added(desired: FileAttributes, current: FileAttributes): string {
    Diff(true, desired, current, |FlagOrder|)
  }

  /** The letters passed to `chattr -`: clear in `desired`, set in `current`, in `FlagOrder`. */
  function Removed(desired: FileAttributes, current: FileAttributes): string {
    Diff(false, desired, current, |FlagOrder|)
  }

  /** No letter is both added and removed, and no letter is listed twice. */
  lemma DiffDisjoint(desired: FileAttributes, current: FileAttributes)
    ensures forall c :: !(c in Added(desired, current) && c in Removed(desired, current))
    ensures forall i, j :: 0 <= i < j < |Added(desired, current)| ==> Added(desired, current)[i] != Added(desired, current)[j]
    ensures forall i, j :: 0 <= i < j < |Removed(desired, current)| ==> Removed(desired, current)[i] != Removed(desired, current)[j]
  {
  }

  function WithFlag(a: FileAttributes, c: char, v: bool): (r: FileAttributes)
    ensures forall d :: IsFlag(d) ==> Flag(r, d) == if d == c then v else Flag(a, d)
  {
    match c
    case 'i' => a.(immutable := v)
    case 'a' => a.(appendOnly := v)
    case 'd' => a.(noDump := v)
    case 'S' => a.(synchronous := v)
    case 'A' => a.(noAtime := v)
    case 'c' => a.(compressed := v)
    case 'C' => a.(noCoW := v)
    case 'u' => a.(undeletable := v)
    case _ => a
  }

  /** What `chattr +flags` (v true) or `chattr -flags` (v false) does to a file's attributes. */
  function WithFlags(a: FileAttributes, flags: string, v: bool): (r: FileAttributes)
    ensures forall d :: IsFlag(d) ==> Flag(r, d) == if d in flags then v else Flag(a, d)
  {
    if flags == [] then a else WithFlag(WithFlags(a, flags[..|flags| - 1], v), flags[|flags| - 1], v)
  }

  /**
   * The diff is exact: adding the added letters and then removing the removed
   * ones turns the current attributes into the desired ones.
   */
  lemma {:induction false} DiffReachesDesired(desired: FileAttributes, current: FileAttributes)
    ensures WithFlags(WithFlags(current, Added(desired, current), true), Removed(desired, current), false) == desired
  {
    var r := WithFlags(WithFlags(current, Added(desired, current), true), Removed(desired, current), false);
    assert FlagOrder[..|FlagOrder|] == FlagOrder;
    FlagsDetermine(r, desired);
  }

  /** The diff is minimal: a letter is listed only when its flag differs. */
  lemma DiffMinimal(desired: FileAttributes, current: FileAttributes, c: char)
    requires c in Added(desired, current) || c in Removed(desired, current)
    ensures IsFlag(c) && Flag(desired, c) != Flag(current, c)
  {
  }
}
