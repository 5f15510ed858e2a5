# terraform-provider-ssh: the SSH client, its connection pool and permission parsing

This project models the core of a Terraform provider that manages files and
directories on a remote host over SSH. It covers three parts:

- **The connection pool** (`SSHPool`). It is a table of connected clients
  keyed by `host:port:username` and bounded by `maxConns`. `GetClient` hands
  back an idle, live client, or dials a new one. `ReleaseClient` gives a
  client back. A periodic sweep closes and drops clients that have been idle
  too long. `Close` empties the pool.
- **The client** (`SSHClient`):
  - how `NewSSHClient` chooses authentication methods and the dial address;
  - the SFTP operations `Exists`, `GetFileMode`, `CreateDirectory` and
    `CreateFile`;
  - the shell-command operations that read and set file ownership
    (`ls -ldn`, `getent`, `chown`) and extended attributes (`lsattr`,
    `chattr`).
- **`ParsePermissions`**. It reads an octal permission string and falls back
  to 0644. It round-trips with the `%04o` rendering that permissions are read
  back with.

Modules:

| module | file | contents |
|---|---|---|
| `Results` | `results.dfy` | `Option`, `Result` |
| `Text` | `text.dfy` | the Go library text functions the core uses: `strings.Fields` and `strings.TrimSpace` (over `unicode.IsSpace`), `strconv.Itoa`, digit strings |
| `Perms` | `perms.dfy` | `strconv.ParseUint(s, 8, 32)`, `ParsePermissions`, `%04o` |
| `Remote` | `remote.dfy` | the remote side: a file tree behind SFTP (class `RemoteFs`), and the shell commands with their replies |
| `Attrs` | `attrs.dfy` | `FileAttributes`, `lsattr` parsing, the add and remove flag lists, and what `chattr` does |
| `Owners` | `owners.dfy` | `FileOwnership`, the `ls -ldn` id fields, the `chown` target |
| `Client` | `client.dfy` | `SSHConfig`, `NewSSHClient`, class `SSHClient` |
| `Pool` | `pool.dfy` | class `SSHPool` |

How the outside world enters the model:

- **SFTP.** The file tree is the `nodes` map of a `RemoteFs`. Its methods
  (`MkdirAll`, `Chmod`, `Create`, `Write`) update the map in place. A
  request the server refuses for a reason of its own (permission denied, a
  lost link) comes from an `IoFaults` oracle keyed by request and path. The
  oracle is deterministic, so the two `Stat`s that `CreateFile` makes of the
  parent agree.
- **Shell commands.** The remote host is a `Shell`: whether a session opens
  for a command, and what running it prints or that it fails. A command is a
  datatype of its format arguments (`Chown(user, group, path)`,
  `Chattr(sign, flags, path)`, ...). `%q` quoting is not modelled.
- **Transport.** Four booleans in `Transport`: does the private key parse,
  does the host parse as an IP address, does the dial succeed, does the SFTP
  channel open.
- **The pool.**
  - The clock is an integer `now` in nanoseconds, and `maxIdle` uses the same
    unit, as Go's `time.Duration` does.
  - The liveness probe is an `alive` argument: it stands for what the comment
    at `ssh_pool.go:73` says the probe is for ("is the connection still
    alive"), not for what the probe call does (see `Pool.SSHPool.GetClient`
    under "## Left out").
  - The pool records every client it closes, in order, in `closed`.

The model follows the code wherever a natural reading of the system differs:

- **`SetFileAttributes` is exact, not additive.** A natural reading is
  "setting `{immutable}` adds `i` and leaves the other flags as they were".
  The code instead clears every flag the request has false. Asking for
  `{immutable}` on an append-only file therefore also removes `a`
  (`Client.ChattrPlanClearsUnrequested`).
- **`GetClient` and an entry in use.** `GetClient` does not wait for or share
  an entry that is in use. It counts that entry toward the bound, dials a new
  client and overwrites the entry. Consequences, shown by
  `Pool.SharedAfterOverwrite`:
  - The first caller's `ReleaseClient` marks the *second* caller's client
    idle.
  - A third caller is then handed the client that the second caller still
    holds, provided the liveness probe reports the idle entry alive. With the
    probe as written (`Conn.Wait`, which returns only once the connection has
    shut down) the third caller instead waits for that connection to end and
    then gets a new client; the overwritten-entry and release steps above do
    not depend on the probe.
  - The overwritten client is never closed by the pool.
- **Failed stat in `CreateFile`.** A failed `Stat` of the parent counts as
  "missing". The parent is then run through `CreateDirectory` and re-moded
  to 0755 even when it existed (`Client.CreateFileStatFaultResetsParent`).
- **Key collisions.** `configKey` joins its parts with `:`, so a username
  containing a colon can make two servers share one pool entry
  (`Pool.ConfigKeyCollision`). For usernames without a colon the key is
  injective (`Pool.ConfigKeyInjective`).

## Model

| member | source | states |
|---|---|---|
| Perms.ParseUintOctal32 | internal/provider/ssh/util.go:9 | `ParseUint(s, 8, 32)` succeeds exactly when `s` is a non-empty string of digits `0`..`7` whose value is below 2^32, with that value; it fails on the empty string, on any other character (a sign, a `0o` prefix, an underscore) and on too large a value; the failure is a range error exactly when some octal prefix of `s` already reaches 2^32, as Go's digit-by-digit scan reports |
| Perms.ScanOctalSpec | internal/provider/ssh/util.go:9 | the digit-by-digit scan from an octal prefix below 2^32 succeeds iff the rest is octal and the whole value stays below 2^32, and gives a range error iff some longer octal prefix reaches 2^32 |
| Perms.RangeBeforeSyntax | internal/provider/ssh/util.go:9 | "77777777777x" is a range error, not a syntax error: the overflow at the eleventh digit is reported before the `x` is seen |
| Perms.ParsePermissions | internal/provider/ssh/util.go:5-14 | the result is below 2^32; the empty string gives 0644; any non-octal character gives 0644; an all-octal string gives its value if below 2^32, otherwise 0644 |
| Perms.Format04o | internal/provider/resource/file_resource.go:253 | the `%04o` rendering is at least four octal digits, exactly four for any mode below 0o10000 |
| Perms.Format04oValue | internal/provider/resource/directory_resource.go:253 | the digits of the `%04o` rendering of `m` read back as `m` |
| Perms.ParseFormatRoundTrip | internal/provider/ssh/util.go:5-14 | parsing the `%04o` rendering of any value below 2^32 (so of every mode up to 0777) gives it back |
| Perms.LeadingZeroIgnored | internal/provider/ssh/util.go:9-13 | a leading `0` does not change the result of a non-empty string |
| Perms.ParsePermissionsExamples | internal/provider/ssh/util_test.go:15-20 | the table test's cases: "755", "0755", "777", "0777", "600", "0600" give their octal values |
| Perms.ParsePermissionsFallbacks | internal/provider/ssh/util.go:5-14 | "", "+755", "0o755", "7_55" and "0789" are refused by `ParseUint` and give 0644 |
| Text.Fields | internal/provider/ssh/ssh_client.go:281 | `strings.Fields` returns non-empty words free of white space (its partner, `Text.LayoutOfFields`, shows nothing else is dropped) |
| Text.FieldsOfLayout | internal/provider/ssh/ssh_client.go:281 | words laid out with any runs of white space between them, and any (possibly empty) run before the first and after the last, split back into exactly those words |
| Text.LayoutOfFields | internal/provider/ssh/ssh_client.go:281 | every string is its fields laid out with white-space gaps, so `Fields` drops only white space |
| Text.TrimSpace | internal/provider/ssh/ssh_client.go:318-319 | `strings.TrimSpace` returns a slice of its input with no white space at either end and only white space cut away |
| Text.TrimSpaceLine | internal/provider/ssh/ssh_client.go:318-319 | a word followed by a newline, as `getent ... \| cut` prints it, trims to the word |
| Text.Itoa | internal/provider/ssh/ssh_client.go:91 | `strconv.Itoa` is non-empty and has no colon |
| Text.ItoaInjective | internal/provider/ssh/ssh_pool.go:154 | different integers render differently |
| Text.ToDigitsValue | internal/provider/ssh/ssh_client.go:91 | the digits of `n` in a base read back as `n` |
| Pool.SplitAtLastColon | internal/provider/ssh/ssh_pool.go:154 | text joined at a colon splits back into its two parts at the last colon when the right-hand part has none |
| Text.LastIndexAfter | internal/provider/ssh/ssh_client.go:91 | the last `c` of `a + c + b` is the one after `a` when `b` holds none |
| Client.AuthMethods | internal/provider/ssh/ssh_client.go:60-77 | a key that fails to parse is reported first; no credentials give "no authentication method"; otherwise the list has a password method iff the password is non-empty, followed by a key method iff the key is non-empty, and nothing else |
| Client.DialAddress | internal/provider/ssh/ssh_client.go:85-91 | the address splits at its last colon into the host (in brackets exactly when it parses as an IP, IPv4 included) and the decimal port |
| Client.ConnectFailure | internal/provider/ssh/ssh_client.go:60-104 | the first failure, in the order: authentication methods (its own error), dial (`ConnectFailed`), SFTP channel (`SftpFailed`); none exactly when all three succeed |
| Client.NewSSHClient | internal/provider/ssh/ssh_client.go:54-111 | fails exactly with `ConnectFailure`; on success a fresh client with the dial address and the authentication list |
| Client.ExistsResult | internal/provider/ssh/ssh_client.go:235-244 | a found node is `true`, not-found is `false` with no error, any other stat failure is an error |
| Client.SSHClient.Exists | internal/provider/ssh/ssh_client.go:231-245 | `true` iff the stat succeeds and the path is in the tree, `false` iff the stat succeeds and it is not, an error iff the stat fails |
| Client.SSHClient.GetFileMode | internal/provider/ssh/ssh_client.go:248-259 | succeeds iff the stat does; the result is the node's permission bits, below 0o1000 |
| Client.CreateDirectoryOutcome | internal/provider/ssh/ssh_client.go:200-214 | an existing path (stat succeeding) is refused with the tree unchanged; success leaves the path a directory of the requested mode |
| Remote.MkdirAllMakesDirectories | internal/provider/ssh/ssh_client.go:204 | a successful `MkdirAll` makes the path and every directory above it a directory, keeps every existing node, and adds nothing else |
| Remote.WriteAtStart | internal/provider/ssh/ssh_client.go:148 | writing data at offset 0 over existing content leaves the data as the prefix, and the length is the larger of the two (`Create` truncates first, so the file then holds exactly the data) |
| Client.SSHClient.CreateDirectory | internal/provider/ssh/ssh_client.go:196-215 | the step-by-step method (exists check, `MkdirAll`, `Chmod`) ends in the error and tree that `CreateDirectoryOutcome` gives |
| Client.CreateFileOutcome | internal/provider/ssh/ssh_client.go:129-159 | a refused `Create`, `Write` or `Chmod` of the file is always reported as an error; success leaves the file holding exactly the content with the requested mode, under a parent that is a directory |
| Client.SSHClient.CreateFile | internal/provider/ssh/ssh_client.go:129-159 | the step-by-step method (parent check, parent `CreateDirectory` with 0755, `Create`, `Write`, `Chmod`) ends in the error and tree that `CreateFileOutcome` gives |
| Client.CreateDirectoryFrame | internal/provider/ssh/ssh_client.go:200-214 | whatever happens, nodes other than the path keep their value, and only directories on the way to the path are added |
| Client.CreateDirectorySucceeds | internal/provider/ssh/ssh_client.go:204-214 | without faults, a new path not under a file becomes a directory of the requested mode, with every directory above it present |
| Client.CreateDirectoryTwice | internal/provider/ssh/ssh_client_test.go:74-92 | the test's scenario: not there, created, there, and a second create refused with the tree unchanged |
| Client.ParentTargetsExclude | internal/provider/ssh/ssh_client.go:134-139 | a path is neither its own parent nor above it, so creating the parent never touches the file's own node |
| Client.CreateFileSucceeds | internal/provider/ssh/ssh_client.go:129-159 | without faults, with the parent not under a file and the path not a directory, the file holds exactly the content with the requested mode and its parent is a directory; `GetFileMode` then reads back the mode's low nine bits, the mode itself when below 0o1000 |
| Client.FileModeOf | internal/provider/ssh/ssh_client.go:250-258 | a found node gives its permission bits (`mode % 0o1000`); any other stat outcome is a "file mode" error for the path |
| Client.CreateFileMakesParent0755 | internal/provider/ssh/ssh_client.go:134-139 | a missing parent is created with mode 0755 |
| Client.CreateFileStatFaultResetsParent | internal/provider/ssh/ssh_client.go:134-139 | an existing parent whose stat fails is re-moded to 0755, since the error from `Exists` is ignored |
| Client.CreateFileKeepsExistingParent | internal/provider/ssh/ssh_client.go:134-139 | without faults, an existing parent keeps its node and mode |
| Client.SSHClient.Run | internal/provider/ssh/ssh_client.go:266-276 | a command's output is available iff its session opens and it succeeds; a session that does not open is reported as such |
| Owners.ParseLsIds | internal/provider/ssh/ssh_client.go:280-287 | fewer than four fields is an error; otherwise the third and fourth fields, each a word |
| Owners.LsIdsOfListing | internal/provider/ssh/ssh_client.go:280-287 | in any listing of words separated by white-space runs, with any leading and trailing white space (padding, a final newline), the ids are the third and fourth words when there are at least four, and an error otherwise |
| Owners.ChownTarget | internal/provider/ssh/ssh_client.go:346-362 | each half of the `chown` target is the requested one when it is non-empty and the current one otherwise |
| Client.SSHClient.GetFileOwnership | internal/provider/ssh/ssh_client.go:262-321 | a failed `ls -ldn` returns its error; an output with fewer than four fields is an "invalid ls output" error; a failed user or group lookup returns its error; it succeeds exactly when all three commands succeed and the listing has four fields, and then the names are the trimmed outputs of `getent passwd` for the uid and `getent group` for the gid |
| Client.SSHClient.GetFileOwnershipOfListing | internal/provider/ssh/ssh_client.go:262-321 | with `ls -ldn` printing four or more words under any white-space layout and `getent` printing each name on a line, the result is the two names |
| Client.SSHClient.OwnershipBase | internal/provider/ssh/ssh_client.go:346-362 | the current ownership is looked up exactly when one half of the request is empty |
| Client.SSHClient.SetFileOwnership | internal/provider/ssh/ssh_client.go:324-374 | no request or an empty one runs nothing and succeeds; a session that does not open fails; at most one `chown`, on the path, whose halves come from `ChownTarget`; it runs exactly when the lookup (if needed) succeeds; success iff the `chown` succeeds or nothing was asked |
| Client.SSHClient.SetFileOwnershipCommand | internal/provider/ssh/ssh_client.go:346-362 | both halves give `chown user:group`; only the user keeps the current group; only the group keeps the current user; a failed lookup aborts with no `chown` |
| Attrs.ParseLsattr | internal/provider/ssh/ssh_client.go:394-406 | output shorter than 16 characters gives no flags; otherwise each flag is set iff its letter occurs in the first 16 characters |
| Attrs.ParseLsattrLine | internal/provider/ssh/ssh_client.go:394-406 | a line that starts with a flag field for some attributes (tracked columns showing their letter or `-`, any other column anything but a tracked letter, any number of columns from 16 on) parses to those attributes, whatever follows |
| Attrs.ExtentsOnlyField | internal/provider/ssh/ssh_client.go:394-406 | the 22-column field `--------------e-------` of a current e2fsprogs is a flag field with no tracked flag set |
| Client.SSHClient.GetFileAttributes | internal/provider/ssh/ssh_client.go:377-409 | succeeds iff `lsattr -d` does, with the flags parsed from its output |
| Client.SSHClient.GetFileAttributesOfLsattr | internal/provider/ssh/ssh_client.go:377-409 | `lsattr -d` printing a flag field for some attributes, of any width from 16 columns, followed by anything (the path, a newline), makes `GetFileAttributes` return those attributes |
| Attrs.Diff | internal/provider/ssh/ssh_client.go:458-464 | a letter is in the list iff it is among the flags walked so far, wanted one way and currently the other; the list follows the order `i a d S A c C u` |
| Attrs.DiffDisjoint | internal/provider/ssh/ssh_client.go:458-464 | no letter is both added and removed, and neither list repeats a letter |
| Attrs.DiffMinimal | internal/provider/ssh/ssh_client.go:458-464 | a letter is listed only when its flag differs between desired and current |
| Attrs.WithFlags | internal/provider/ssh/ssh_client.go:474-491 | `chattr +flags` sets, and `chattr -flags` clears, exactly the named flags |
| Attrs.DiffReachesDesired | internal/provider/ssh/ssh_client.go:458-491 | adding the added letters and then removing the removed ones gives exactly the desired attributes |
| Client.AttributeChanges | internal/provider/ssh/ssh_client.go:458-464 | the loop collects exactly the add list and the remove list |
| Client.ChattrCommands | internal/provider/ssh/ssh_client.go:467-495 | one `chattr +` command when there are letters to add and one `chattr -` command when there are letters to remove, each on the path and carrying exactly its letters, the `+` one first; nothing else |
| Client.ApplyChattrCommands | internal/provider/ssh/ssh_client.go:467-495 | running those commands is setting the added letters and then clearing the removed ones |
| Client.SSHClient.RunChattrs | internal/provider/ssh/ssh_client.go:467-495 | the two `if` blocks, each opening a session and running its command, run the planned commands in order and stop at the first session that does not open or command that fails |
| Client.ChattrPlanReachesDesired | internal/provider/ssh/ssh_client.go:412-498 | running the planned commands gives the file exactly the requested attributes |
| Client.ChattrPlanClearsUnrequested | internal/provider/ssh/ssh_client.go:458-495 | a flag the request leaves false but the file has ends up in the final `chattr -` |
| Client.SSHClient.RunInOrder | internal/provider/ssh/ssh_client.go:467-495 | a failed run failed either because a session did not open or because the last command it ran failed |
| Client.SSHClient.RunInOrderPrefix | internal/provider/ssh/ssh_client.go:467-495 | the commands run are a prefix of the plan; the whole succeeds iff every session opens and every command succeeds, and then all were run |
| Client.SSHClient.SetFileAttributes | internal/provider/ssh/ssh_client.go:412-498 | no request does nothing; a failed read of the current flags is returned with nothing run; otherwise the `chattr` plan runs in order and stops at the first failure |
| Pool.ConfigKey | internal/provider/ssh/ssh_pool.go:153-155 | for a username without a colon, the text after the key's last colon is the username |
| Pool.ConfigKeyIgnoresSecrets | internal/provider/ssh/ssh_pool.go:153-155 | configs differing only in password or private key share a key |
| Pool.ConfigKeyInjective | internal/provider/ssh/ssh_pool.go:153-155 | for usernames without a colon, equal keys mean equal host, port and username |
| Pool.ConfigKeyCollision | internal/provider/ssh/ssh_pool.go:153-155 | ("a", 1, "2:b") and ("a:1", 2, "b") have the same key |
| Pool.Swept | internal/provider/ssh/ssh_pool.go:138-147 | a sweep keeps exactly the entries that are in use or idle for at most `maxIdle`, unchanged |
| Pool.SweptKeeps | internal/provider/ssh/ssh_pool.go:139 | an entry in use, or idle for exactly `maxIdle` or less, survives the sweep (the test is strict) |
| Pool.SweptIdempotent | internal/provider/ssh/ssh_pool.go:138-147 | a second sweep at the same time removes nothing more |
| Pool.SweptMonotone | internal/provider/ssh/ssh_pool.go:139 | a later sweep removes at least what an earlier one does |
| Pool.SweptShrinks | internal/provider/ssh/ssh_pool.go:138-147 | a sweep never grows the table |
| Pool.AfterReuseCheck | internal/provider/ssh/ssh_pool.go:72-81 | an idle entry that is not handed back (it is dead) is deleted; the table is otherwise unchanged |
| Pool.InsertKeepsValid | internal/provider/ssh/ssh_pool.go:84-98 | storing a new client below the bound keeps the pool invariant (bound, distinct clients, none closed) |
| Pool.UpdateKeepsValid | internal/provider/ssh/ssh_pool.go:75-76 | changing an entry's flags keeps the pool invariant |
| Pool.DeleteKeepsValid | internal/provider/ssh/ssh_pool.go:80 | deleting an entry keeps the pool invariant |
| Pool.DropKeepsValid | internal/provider/ssh/ssh_pool.go:120-127 | closing an entry's client and deleting the entry keeps the pool invariant, so no client is closed twice |
| Pool.SweepStateKeep | internal/provider/ssh/ssh_pool.go:138-147 | during a sweep, examining an entry that has not expired leaves the table and the closed clients as they are |
| Pool.SweepStateDrop | internal/provider/ssh/ssh_pool.go:138-147 | during a sweep, examining an expired entry closes its client and drops it, keeping the sweep's progress invariant |
| Pool.SweepStateDone | internal/provider/ssh/ssh_pool.go:138-147 | once every key is examined the table is `Swept` |
| Pool.SSHPool.constructor | internal/provider/ssh/ssh_pool.go:37-59 | a new pool is empty and has closed nothing; a zero idle time becomes 5 minutes and a zero bound 10; non-zero values are kept |
| Pool.SSHPool.GetClient | internal/provider/ssh/ssh_pool.go:62-101 | an idle, live entry's own client is handed back, marked in use as of `now`, and the keys are unchanged; otherwise an idle dead entry is deleted first; with `maxConns` entries left it fails and adds nothing; a failed dial returns its error and adds nothing; otherwise a fresh client is stored in use as of `now` under the key, replacing an entry in use; the invariant (including the bound) is kept and nothing is closed |
| Pool.SSHPool.Admit | internal/provider/ssh/ssh_pool.go:83-100 | with `maxConns` entries it fails and adds nothing; a failed dial returns its error and adds nothing; otherwise a fresh client is stored in use as of `now` under the key |
| Pool.SSHPool.ReleaseClient | internal/provider/ssh/ssh_pool.go:104-113 | a present key's entry becomes idle as of `now`; an absent key changes nothing; no other entry changes |
| Pool.SSHPool.Sweep | internal/provider/ssh/ssh_pool.go:136-148 | the table becomes `Swept`; one client is closed per dropped entry, each a dropped entry's client, and no client is closed twice |
| Pool.SSHPool.Close | internal/provider/ssh/ssh_pool.go:116-128 | the table is left empty and every pooled client is closed exactly once |
| Pool.SSHPool.CloseStep | internal/provider/ssh/ssh_pool.go:119-127 | one iteration of `Close`: an entry of the original table is closed and dropped and the table shrinks |
| Pool.SSHPool.SweepStep | internal/provider/ssh/ssh_pool.go:138-147 | one iteration of the sweep: the examined key is dropped, its client closed, exactly when it has expired |
| Pool.SSHPool.Drop | internal/provider/ssh/ssh_pool.go:120-127 | the entry's client is closed (its `closeOnce` not yet used) and the entry deleted |
| Pool.SharedAfterOverwrite | internal/provider/ssh/ssh_pool.go:72-113 | a second caller for a key in use gets a different client; after the first caller's release, a third caller gets the second caller's client |
| Pool.RefusedWhileInUse | internal/provider/ssh/ssh_pool.go:83-86 | with a bound of one, a second caller for the same key is refused while the first holds the entry |

## Left out

- `DeleteFile` and `DeleteDirectory`: each is one SFTP call whose error is passed on.
- `ReadFile` (`ssh_client.go:162-180`): two SFTP steps, `Open` and then `io.ReadAll`, each returning its own error; the model has no read path.
- `SSHClient.Close` (`ssh_client.go:114-125`): it closes the SFTP client, then the SSH client, and returns at the first error, so a failed SFTP close leaves the SSH connection open. `SSHPool.Close` and the sweep only log that error (`ssh_pool.go:122-124`, `141-143`). A client in the pool's `closed` record has therefore had `Close` called exactly once; the model does not promise that both of its channels were shut.
- The cleanup goroutine and its 30-second ticker: one pass of its loop body is `SSHPool.Sweep`, taking `now` as an argument.
- `sync.RWMutex`: each pool operation is one atomic method. `sync.Once`: the `closeOnce` flag of an entry together with the duplicate-free `closed` record.
- Logging (logrus) and tracing (OpenTelemetry) spans, so also the error texts: errors are a datatype naming the failed step.
- `net.ParseIP` and `ssh.ParsePrivateKey`: what they decide is an input (`Transport.hostIsIP`, `Transport.keyParses`).
- `ssh.Dial`, `sftp.NewClient`: their success is an input. `NewSSHClient` closing the SSH connection when the SFTP channel fails is not modelled.
- `Conn.Wait()`, the liveness probe: its outcome is the `alive` argument of `GetClient`, and how long it blocks is not modelled.
- Pool.SSHPool.GetClient: `alive` models the intent of the comment at `ssh_pool.go:73`, not the call at line 74. `Conn.Wait` blocks until the SSH connection shuts down and then returns the error that ended it, which is not nil. In the code as written, a request that finds an idle entry therefore blocks while holding the pool's mutex until that connection ends, and then deletes the entry and dials again (the `alive == false` path). The reuse branch at lines 75-77 (`alive == true`) is reached only if the probe were one that returns nil for a live connection.
- Remote.RemoteFs.Chmod: stores the whole requested mode, whereas the SFTP client sends only `mode & 0o7777` to the server; the modes 0644 and 0755 that the core uses are unaffected, and `GetFileMode` reads only the low nine bits anyway.
- Remote.IoFaults: a fault depends only on the request kind and the path, so a request repeated on the same path gets the same answer; in particular the parent `Stat` of `CreateFile` (`ssh_client.go:135`) and the one that the nested `CreateDirectory` makes (`ssh_client.go:200`) agree, whereas on a real server the two could differ.
- `%q` shell quoting of paths and the concatenation of command strings: a command is a datatype of its arguments.
- Pool.SSHPool.Sweep: does not model `time.Time.Sub` saturating at the largest duration; `now - lastUsed` is exact.
- Remote.ParentDir: corresponds to `filepath.Dir` only for clean paths (no `//`, `.` or `..` elements); the cleaning step is not modelled.
- Remote.RemoteFs.MkdirAll: a failing `MkdirAll` leaves the tree unchanged, whereas the real call can create some directories before it fails.
- Client.SSHClient.Run: a shell's replies are fixed per command, so the three lookups of `GetFileOwnership` cannot see the host change between them.
- Client.SSHClient.SetFileOwnership: the first session is opened before the command is known, so whether it opens is the `sessionOpens` argument and not the `Shell` oracle.
- Attrs.ParseLsattr: counts characters where the code counts bytes; the two agree on `lsattr`'s ASCII flag columns, but not on multi-byte output.
- The resource and data-source handlers, the provider wiring and the schema declarations are not part of this model. That includes the default port 22 and the `%04o` rendering at the resource layer, which `Perms.Format04o` stands in for.
