/**
 * The SSH client (internal/provider/ssh/ssh_client.go): how `NewSSHClient`
 * chooses authentication and the dial address, and the file operations an
 * `SSHClient` performs over its SFTP channel and its shell sessions.
 */
module Client {
  import opened Results
  import opened Text
  import opened Remote
  import opened Attrs
  import opened Owners

  datatype SSHConfig = SSHConfig(host: string, port: int, username: string, password: string, privateKey: string)

  datatype AuthMethod = PasswordAuth(password: string) | PublicKeyAuth(privateKey: string)

  /** The errors the client reports, by the step that failed. */
  datatype ClientError =
    | KeyParseFailed
    | NoAuthMethod
    | ConnectFailed
    | SftpFailed
    | CheckExistenceFailed(path: Path)
    | AlreadyExists(path: Path)
    | MkdirFailed(path: Path)
    | DirPermissionsFailed(path: Path)
    | ParentDirFailed(cause: ClientError)
    | CreateFailed(path: Path)
    | WriteFailed(path: Path)
    | FilePermissionsFailed(path: Path)
    | FileModeFailed(path: Path)
    | SessionFailed
    | CommandFailed(command: Command)
    | InvalidLsOutput(output: string)
    | CurrentOwnershipFailed(cause: ClientError)

  /**
   * What the network and the SSH library decide and the model does not:
   * whether the private key parses, whether the host parses as an IP address,
   * and whether the dial and the SFTP channel succeed.
   */
  datatype Transport = Transport(keyParses: bool, hostIsIP: bool, dialSucceeds: bool, sftpSucceeds: bool)

  /** The authentication methods offered to the server: the password first, then the key. */
  function AuthMethods(config: SSHConfig, keyParses: bool): (r: Result<seq<AuthMethod>, ClientError>)
    ensures config.privateKey != "" && !keyParses ==> r == Err(KeyParseFailed)
    ensures config.password == "" && config.privateKey == "" ==> r == Err(NoAuthMethod)
    ensures r.Ok? <==> (config.password != "" || config.privateKey != "") && (config.privateKey == "" || keyParses)
    ensures r.Ok? ==>
      && (PasswordAuth(config.password) in r.value <==> config.password != "")
      && (PublicKeyAuth(config.privateKey) in r.value <==> config.privateKey != "")
      && (forall m :: m in r.value ==> m == PasswordAuth(config.password) || m == PublicKeyAuth(config.privateKey))
      && |r.value| == (if config.password != "" then 1 else 0) + (if config.privateKey != "" then 1 else 0)
      && (forall i, j :: 0 <= i < j < |r.value| ==> r.value[i].PasswordAuth? && r.value[j].PublicKeyAuth?)
  {
    var withPassword := if config.password != "" then [PasswordAuth(config.password)] else [];
    if config.privateKey != "" && !keyParses then Err(KeyParseFailed)
    else
      var methods := withPassword + if config.privateKey != "" then [PublicKeyAuth(config.privateKey)] else [];
      if methods == [] then Err(NoAuthMethod) else Ok(methods)
  }

  /** The host as written in the dial address: in brackets when it parses as an IP address. */
  function HostPart(host: string, hostIsIP: bool): string {
    if hostIsIP then "[" + host + "]" else host
  }

  /**
   * The dial address `host:port`. It splits back at its last colon into the
   * host part (bracketed exactly for an IP literal, IPv4 included) and the
   * decimal port.
   */
  function DialAddress(host: string, port: int, hostIsIP: bool): (r: string)
    ensures var i := LastIndexOf(r, ':');
      && i == |HostPart(host, hostIsIP)|
      && r[..i] == HostPart(host, hostIsIP)
      && r[i + 1..] == Itoa(port)
  {
    var r := HostPart(host, hostIsIP) + ":" + Itoa(port);
    LastIndexAfter(HostPart(host, hostIsIP), ':', Itoa(port));
    r
  }

  /** The first failure of `NewSSHClient`, in the order it checks: key, credentials, dial, SFTP channel. */
  function ConnectFailure(config: SSHConfig, t: Transport): (r: Option<ClientError>)
    ensures AuthMethods(config, t.keyParses).Err? ==> r == Some(AuthMethods(config, t.keyParses).error)
    ensures AuthMethods(config, t.keyParses).Ok? && !t.dialSucceeds ==> r == Some(ConnectFailed)
    ensures AuthMethods(config, t.keyParses).Ok? && t.dialSucceeds && !t.sftpSucceeds ==> r == Some(SftpFailed)
    ensures r.None? <==> AuthMethods(config, t.keyParses).Ok? && t.dialSucceeds && t.sftpSucceeds
  {
    match AuthMethods(config, t.keyParses)
    case Err(e) => Some(e)
    case Ok(_) =>
      if !t.dialSucceeds then Some(ConnectFailed)
      else if !t.sftpSucceeds then Some(SftpFailed)
      else None
  }

  /** What `Exists` makes of a stat: found, not found, or an error. */
  function ExistsResult(s: StatResult, path: Path): (r: Result<bool, ClientError>)
    ensures r == Ok(true) <==> s.Found?
    ensures r == Ok(false) <==> s.NotExist?
    ensures r.Err? <==> s.StatFailed?
  {
    match s
    case Found(_) => Ok(true)
    case NotExist => Ok(false)
    case StatFailed => Err(CheckExistenceFailed(path))
  }

  /** What `GetFileMode` makes of a stat: the permission bits (`Mode().Perm()`), or an error. */
  function FileModeOf(s: StatResult, path: Path): (r: Result<nat, ClientError>)
    ensures r.Ok? <==> s.Found?
    ensures r.Ok? ==> r.value < 512 && r.value == s.node.mode % 512
    ensures r.Err? ==> r.error == FileModeFailed(path)
  {
    match s
    case Found(n) => Ok(n.mode % 512)
    case _ => Err(FileModeFailed(path))
  }

  /** An error and the file tree it leaves behind. */
  datatype Outcome = Outcome(err: Option<ClientError>, nodes: map<Path, Node>)

  /**
   * `CreateDirectory` on a tree: refuse a path that exists, otherwise
   * `MkdirAll` and then `Chmod` the requested mode. A failed existence check
   * counts as "does not exist".
   */
  function CreateDirectoryOutcome(was: map<Path, Node>, path: Path, mode: nat, io: IoFaults, dirMode: nat): (r: Outcome)
    ensures !io(StatReq, path) && path in was ==> r == Outcome(Some(AlreadyExists(path)), was)
    ensures r.err.None? ==> path in r.nodes && r.nodes[path] == Dir(mode)
  {
    if ExistsResult(StatOf(was, path, io), path) == Ok(true) then Outcome(Some(AlreadyExists(path)), was)
    else if io(MkdirAllReq, path) || MkdirAllBlocked(was, path) then Outcome(Some(MkdirFailed(path)), was)
    else
      var made := MkdirAllNodes(was, path, dirMode);
      if io(ChmodReq, path) then Outcome(Some(DirPermissionsFailed(path)), made)
      else Outcome(None, made[path := WithMode(made[path], mode)])
  }

  /** 0755 octal: the mode `CreateFile` gives a parent directory it has to create. */
  const ParentDirMode: nat := 493

  /**
   * `CreateFile` on a tree: create the parent with 0755 unless it exists,
   * then create (or truncate) the file, write the content and `Chmod` it.
   * Each failure leaves the tree as the steps before it made it.
   */
  function CreateFileOutcome(was: map<Path, Node>, path: Path, content: string, mode: nat,
                             io: IoFaults, dirMode: nat, fileMode: nat): (r: Outcome)
    ensures io(CreateReq, path) || io(WriteReq, path) || io(ChmodReq, path) ==> r.err.Some?
    ensures r.err.None? ==> path in r.nodes && r.nodes[path] == File(content, mode) && ParentIsDir(r.nodes, path)
  {
    var parent := ParentDir(path);
    var pre := if ExistsResult(StatOf(was, parent, io), parent) == Ok(true) then Outcome(None, was)
               else CreateDirectoryOutcome(was, parent, ParentDirMode, io, dirMode);
    if pre.err.Some? then Outcome(Some(ParentDirFailed(pre.err.value)), pre.nodes)
    else
      var n := pre.nodes;
      if io(CreateReq, path) || !ParentIsDir(n, path) || (path in n && n[path].Dir?) then Outcome(Some(CreateFailed(path)), n)
      else
        var created := n[path := File("", if path in n then n[path].mode else fileMode)];
        if io(WriteReq, path) then Outcome(Some(WriteFailed(path)), created)
        else
          var written := created[path := File(WriteAtStart("", content), created[path].mode)];
          if io(ChmodReq, path) then Outcome(Some(FilePermissionsFailed(path)), written)
          else Outcome(None, written[path := WithMode(written[path], mode)])
  }

  /** No SFTP request is refused for a reason of its own. */
  ghost predicate NoFaults(io: IoFaults) {
    forall q, p :: !io(q, p)
  }

  /**
   * Whatever happens, `CreateDirectory` only adds directories on the way to
   * `path` and re-modes `path` itself: every other node is kept as it was.
   */
  lemma CreateDirectoryFrame(was: map<Path, Node>, path: Path, mode: nat, io: IoFaults, dirMode: nat)
    ensures var r := CreateDirectoryOutcome(was, path, mode, io, dirMode);
      && (forall k :: k in was ==> k in r.nodes)
      && (forall k :: k in was && k != path ==> r.nodes[k] == was[k])
      && (forall k :: k in r.nodes && k !in was ==> k in MkdirTargets(path) && r.nodes[k].Dir?)
  {
  }

  /**
   * Without faults, `CreateDirectory` on a path that does not exist and is
   * not under a file succeeds: the path is a directory of the requested mode
   * and every directory above it exists.
   */
  lemma {:induction false} CreateDirectorySucceeds(was: map<Path, Node>, path: Path, mode: nat, io: IoFaults, dirMode: nat)
    requires NoFaults(io) && path !in was && !MkdirAllBlocked(was, path)
    ensures var r := CreateDirectoryOutcome(was, path, mode, io, dirMode);
      && r.err.None?
      && r.nodes[path] == Dir(mode)
      && (forall a :: a in Ancestors(path) ==> a in r.nodes && r.nodes[a].Dir?)
  {
    assert !io(StatReq, path) && !io(MkdirAllReq, path) && !io(ChmodReq, path);
    MkdirAllMakesDirectories(was, path, dirMode);
  }

  /**
   * The directory scenario of the client's tests: on a fresh path the
   * directory does not exist, `CreateDirectory` succeeds, the directory then
   * exists, and a second `CreateDirectory` fails leaving the tree unchanged.
   */
  lemma {:induction false} CreateDirectoryTwice(was: map<Path, Node>, path: Path, mode: nat, io: IoFaults, dirMode: nat)
    requires NoFaults(io) && path !in was && !MkdirAllBlocked(was, path)
    ensures ExistsResult(StatOf(was, path, io), path) == Ok(false)
    ensures var first := CreateDirectoryOutcome(was, path, mode, io, dirMode);
      && first.err.None?
      && ExistsResult(StatOf(first.nodes, path, io), path) == Ok(true)
      && CreateDirectoryOutcome(first.nodes, path, mode, io, dirMode) == Outcome(Some(AlreadyExists(path)), first.nodes)
  {
    assert !io(StatReq, path);
    CreateDirectorySucceeds(was, path, mode, io, dirMode);
  }

  /** `path` is not the parent of itself nor above it. */
  lemma ParentTargetsExclude(path: Path)
    requires ParentDir(path) != path
    ensures path !in MkdirTargets(ParentDir(path))
  {
    var d := ParentDir(path);
    var i := LastIndexOf(path, '/');
    if i > 0 {
      assert |d| < |path|;
    } else if i == 0 {
      assert ParentDir("/") == "/";
      assert path[..1] == "/" && path != "/";
      assert |path| != 1;
      assert Ancestors("/") == {} by {
        assert ParentDir("/") == "/";
      }
    } else {
      assert Ancestors(".") == {} by {
        assert ParentDir(".") == ".";
      }
    }
  }

  /**
   * Without faults, `CreateFile` where the parent is not under a file and
   * `path` is not a directory succeeds: `path` holds exactly the content with
   * the requested mode, its parent is a directory, and `GetFileMode` then
   * reads back the permission bits of that mode (the mode itself below 0o1000).
   */
  lemma {:induction false} CreateFileSucceeds(was: map<Path, Node>, path: Path, content: string, mode: nat,
                                              io: IoFaults, dirMode: nat, fileMode: nat)
    requires NoFaults(io) && ParentDir(path) != path
    requires !MkdirAllBlocked(was, ParentDir(path))
    requires path !in was || was[path].File?
    ensures var r := CreateFileOutcome(was, path, content, mode, io, dirMode, fileMode);
      && r.err.None?
      && r.nodes[path] == File(content, mode)
      && ParentIsDir(r.nodes, path)
      && StatOf(r.nodes, path, io) == Found(File(content, mode))
      && FileModeOf(StatOf(r.nodes, path, io), path) == Ok(mode % 512)
      && (mode < 512 ==> FileModeOf(StatOf(r.nodes, path, io), path) == Ok(mode))
  {
    var parent := ParentDir(path);
    assert !io(StatReq, parent) && !io(CreateReq, path) && !io(WriteReq, path) && !io(ChmodReq, path);
    ParentTargetsExclude(path);
    if parent !in was {
      CreateDirectorySucceeds(was, parent, ParentDirMode, io, dirMode);
      CreateDirectoryFrame(was, parent, ParentDirMode, io, dirMode);
    } else {
      assert was[parent].Dir? by {
        assert parent in MkdirTargets(parent);
      }
    }
  }

  /** A missing parent is created with mode 0755 (when it is not under a file and nothing faults). */
  lemma {:induction false} CreateFileMakesParent0755(was: map<Path, Node>, path: Path, content: string, mode: nat,
                                                     io: IoFaults, dirMode: nat, fileMode: nat)
    requires NoFaults(io) && ParentDir(path) != path
    requires ParentDir(path) !in was && !MkdirAllBlocked(was, ParentDir(path))
    ensures var r := CreateFileOutcome(was, path, content, mode, io, dirMode, fileMode);
      ParentDir(path) in r.nodes && r.nodes[ParentDir(path)] == Dir(ParentDirMode)
  {
    var parent := ParentDir(path);
    assert !io(StatReq, parent) && !io(CreateReq, path) && !io(WriteReq, path) && !io(ChmodReq, path);
    ParentTargetsExclude(path);
    CreateDirectorySucceeds(was, parent, ParentDirMode, io, dirMode);
    CreateDirectoryFrame(was, parent, ParentDirMode, io, dirMode);
  }

  /**
   * A parent that exists is left alone, but one whose `Stat` fails is
   * treated as missing: `CreateDirectory` runs on it and re-modes it to 0755.
   */
  lemma {:induction false} CreateFileStatFaultResetsParent(was: map<Path, Node>, path: Path, content: string, mode: nat,
                                                           io: IoFaults, dirMode: nat, fileMode: nat, m: nat)
    requires ParentDir(path) != path && ParentDir(path) in was && was[ParentDir(path)] == Dir(m)
    requires !MkdirAllBlocked(was, ParentDir(path))
    requires io(StatReq, ParentDir(path)) && !io(MkdirAllReq, ParentDir(path)) && !io(ChmodReq, ParentDir(path))
    ensures CreateFileOutcome(was, path, content, mode, io, dirMode, fileMode).nodes[ParentDir(path)] == Dir(ParentDirMode)
  {
    ParentTargetsExclude(path);
    CreateDirectoryFrame(was, ParentDir(path), ParentDirMode, io, dirMode);
  }

  /** Without faults, an existing parent directory keeps its mode. */
  lemma {:induction false} CreateFileKeepsExistingParent(was: map<Path, Node>, path: Path, content: string, mode: nat,
                                                         io: IoFaults, dirMode: nat, fileMode: nat)
    requires NoFaults(io) && ParentDir(path) != path && ParentDir(path) in was
    ensures var r := CreateFileOutcome(was, path, content, mode, io, dirMode, fileMode);
      ParentDir(path) in r.nodes && r.nodes[ParentDir(path)] == was[ParentDir(path)]
  {
    assert !io(StatReq, ParentDir(path));
    ParentTargetsExclude(path);
  }

  /** Whether `SetFileOwnership` and `SetFileAttributes` failed, and the state-changing commands they ran. */
  datatype Applied = Applied(err: Option<ClientError>, ran: seq<Command>)

  /** A connected client: its dial address, its authentication, its shell sessions and its SFTP channel. */
  class SSHClient {
    const address: string
    const auth: seq<AuthMethod>
    const ssh: Shell
    const sftp: RemoteFs

    constructor (address: string, auth: seq<AuthMethod>, ssh: Shell, sftp: RemoteFs)
      ensures this.address == address && this.auth == auth && this.ssh == ssh && this.sftp == sftp
    {
      this.address := address;
      this.auth := auth;
      this.ssh := ssh;
      this.sftp := sftp;
    }

    /** Runs `cmd` on a new session: the session can fail to open, the command can fail, or it prints its output. */
    function Run(cmd: Command): (r: Result<string, ClientError>)
      ensures !ssh.opens(cmd) ==> r == Err(SessionFailed)
      ensures r.Ok? <==> ssh.opens(cmd) && ssh.reply(cmd).Output?
      ensures r.Ok? ==> r.value == ssh.reply(cmd).text
    {
      if !ssh.opens(cmd) then Err(SessionFailed)
      else match ssh.reply(cmd)
        case RunFailed => Err(CommandFailed(cmd))
        case Output(text) => Ok(text)
    }

    /** `Exists`: true when the stat succeeds, false when the path does not exist, an error otherwise. */
    function Exists(path: Path, io: IoFaults): (r: Result<bool, ClientError>)
      reads sftp
      ensures r == Ok(true) <==> !io(StatReq, path) && path in sftp.nodes
      ensures r == Ok(false) <==> !io(StatReq, path) && path !in sftp.nodes
      ensures r.Err? <==> io(StatReq, path)
    {
      ExistsResult(sftp.Stat(path, io), path)
    }

    /** `GetFileMode`: the permission bits (`Perm()`, the low nine bits) of the node at `path`. */
    function GetFileMode(path: Path, io: IoFaults): (r: Result<nat, ClientError>)
      reads sftp
      ensures r.Ok? <==> !io(StatReq, path) && path in sftp.nodes
      ensures r.Ok? ==> r.value < 512 && r.value == sftp.nodes[path].mode % 512
    {
      FileModeOf(sftp.Stat(path, io), path)
    }

    method CreateDirectory(path: Path, mode: nat, io: IoFaults) returns (err: Option<ClientError>)
      modifies sftp
      ensures Outcome(err, sftp.nodes) == CreateDirectoryOutcome(old(sftp.nodes), path, mode, io, sftp.dirMode)
    {
      var found := Exists(path, io);
      if found == Ok(true) {
        return Some(AlreadyExists(path));
      }
      var ok := sftp.MkdirAll(path, io);
      if !ok {
        return Some(MkdirFailed(path));
      }
      ok := sftp.Chmod(path, mode, io);
      if !ok {
        return Some(DirPermissionsFailed(path));
      }
      return None;
    }

    method CreateFile(path: Path, content: string, mode: nat, io: IoFaults) returns (err: Option<ClientError>)
      modifies sftp
      ensures Outcome(err, sftp.nodes) == CreateFileOutcome(old(sftp.nodes), path, content, mode, io, sftp.dirMode, sftp.fileMode)
    {
      var parent := ParentDir(path);
      var found := Exists(parent, io);
      if found != Ok(true) {
        var e := CreateDirectory(parent, ParentDirMode, io);
        if e.Some? {
          return Some(ParentDirFailed(e.value));
        }
      }
      var ok := sftp.Create(path, io);
      if !ok {
        return Some(CreateFailed(path));
      }
      ok := sftp.Write(path, content, io);
      if !ok {
        return Some(WriteFailed(path));
      }
      ok := sftp.Chmod(path, mode, io);
      if !ok {
        return Some(FilePermissionsFailed(path));
      }
      return None;
    }

    /**
     * `GetFileOwnership`: the uid and gid from `ls -ldn`, resolved to names
     * with `getent`, each name trimmed of surrounding white space.
     */
    function GetFileOwnership(path: Path): (r: Result<FileOwnership, ClientError>)
      ensures Run(LsNumeric(path)).Err? ==> r == Err(Run(LsNumeric(path)).error)
      ensures Run(LsNumeric(path)).Ok? && LsIds(path).None? ==> r == Err(InvalidLsOutput(Run(LsNumeric(path)).value))
      ensures LsIds(path).Some? ==>
        var ids := LsIds(path).value;
        && (Run(PasswdName(ids.uid)).Err? ==> r == Err(Run(PasswdName(ids.uid)).error))
        && (Run(PasswdName(ids.uid)).Ok? && Run(GroupName(ids.gid)).Err? ==> r == Err(Run(GroupName(ids.gid)).error))
      ensures r.Ok? <==> LsIds(path).Some? && Run(PasswdName(LsIds(path).value.uid)).Ok? && Run(GroupName(LsIds(path).value.gid)).Ok?
      ensures r.Ok? ==>
        var ids := LsIds(path).value;
        r.value == FileOwnership(TrimSpace(Run(PasswdName(ids.uid)).value), TrimSpace(Run(GroupName(ids.gid)).value))
      ensures r.Ok? ==> Trimmed(r.value.user) && Trimmed(r.value.group)
    {
      match Run(LsNumeric(path))
      case Err(e) => Err(e)
      case Ok(listing) =>
        match ParseLsIds(listing)
        case None => Err(InvalidLsOutput(listing))
        case Some(ids) =>
          match Run(PasswdName(ids.uid))
          case Err(e) => Err(e)
          case Ok(userName) =>
            match Run(GroupName(ids.gid))
            case Err(e) => Err(e)
            case Ok(groupName) => Ok(FileOwnership(TrimSpace(userName), TrimSpace(groupName)))
    }

    /** The uid and gid of `ls -ldn path`'s output; none when it fails or has fewer than four fields. */
    function LsIds(path: Path): Option<OwnerIds> {
      if Run(LsNumeric(path)).Ok? then ParseLsIds(Run(LsNumeric(path)).value) else None
    }

    /**
     * The ownership `SetFileOwnership` starts from: the one asked for when it
     * names both halves, otherwise the file's current ownership.
     */
    function OwnershipBase(path: Path, want: FileOwnership): (r: Result<FileOwnership, ClientError>)
      ensures !NeedsLookup(want) ==> r == Ok(want)
      ensures NeedsLookup(want) ==> r == GetFileOwnership(path)
    {
      if NeedsLookup(want) then GetFileOwnership(path) else Ok(want)
    }

    /**
     * `SetFileOwnership`: nothing for no request or an empty one; otherwise
     * one `chown user:group` on the session opened first, with an empty half
     * taken from the file's current ownership. A failed lookup aborts.
     */
    function SetFileOwnership(path: Path, ownership: Option<FileOwnership>, sessionOpens: bool): (r: Applied)
      ensures ownership.None? || (ownership.value.user == "" && ownership.value.group == "") ==> r == Applied(None, [])
      ensures ownership.Some? && (ownership.value.user != "" || ownership.value.group != "") && !sessionOpens ==>
        r == Applied(Some(SessionFailed), [])
      ensures |r.ran| <= 1
      ensures r.ran != [] ==>
        && ownership.Some? && sessionOpens
        && OwnershipBase(path, ownership.value).Ok?
        && r.ran[0] == Chown(ChownTarget(ownership.value, OwnershipBase(path, ownership.value).value).user,
                             ChownTarget(ownership.value, OwnershipBase(path, ownership.value).value).group, path)
      ensures ownership.Some? && (ownership.value.user != "" || ownership.value.group != "") && sessionOpens ==>
        (r.ran == [] <==> OwnershipBase(path, ownership.value).Err?)
      ensures r.err.None? <==>
        || (r.ran != [] && ssh.reply(r.ran[0]).Output?)
        || ownership.None? || (ownership.value.user == "" && ownership.value.group == "")
    {
      if ownership.None? then Applied(None, [])
      else
        var want := ownership.value;
        if want.user == "" && want.group == "" then Applied(None, [])
        else if !sessionOpens then Applied(Some(SessionFailed), [])
        else
          var current := OwnershipBase(path, want);
          if current.Err? then Applied(Some(CurrentOwnershipFailed(current.error)), [])
          else
            var target := ChownTarget(want, current.value);
            var cmd := Chown(target.user, target.group, path);
            if ssh.reply(cmd).RunFailed? then Applied(Some(CommandFailed(cmd)), [cmd])
            else Applied(None, [cmd])
    }

    /**
     * Runs commands one after the other, each on its own session, and stops
     * at the first session that does not open or command that fails.
     */
    function RunInOrder(cmds: seq<Command>): (r: Applied)
      ensures r.err.Some? ==> r.err == Some(SessionFailed) || (r.ran != [] && r.err == Some(CommandFailed(r.ran[|r.ran| - 1])))
      decreases |cmds|
    {
      if cmds == [] then Applied(None, [])
      else if !ssh.opens(cmds[0]) then Applied(Some(SessionFailed), [])
      else if ssh.reply(cmds[0]).RunFailed? then Applied(Some(CommandFailed(cmds[0])), [cmds[0]])
      else
        var rest := RunInOrder(cmds[1..]);
        Applied(rest.err, [cmds[0]] + rest.ran)
    }

    /**
     * The commands run are a prefix of those asked for, and the run succeeds
     * exactly when every command's session opened and every command succeeded.
     */
    lemma {:induction false} RunInOrderPrefix(cmds: seq<Command>)
      ensures |RunInOrder(cmds).ran| <= |cmds|
      ensures RunInOrder(cmds).ran == cmds[..|RunInOrder(cmds).ran|]
      ensures RunInOrder(cmds).err.None? <==>
        forall i :: 0 <= i < |cmds| ==> ssh.opens(cmds[i]) && ssh.reply(cmds[i]).Output?
      ensures RunInOrder(cmds).err.None? ==> RunInOrder(cmds).ran == cmds
      decreases |cmds|
    {
      if cmds != [] && ssh.opens(cmds[0]) && ssh.reply(cmds[0]).Output? {
        RunInOrderPrefix(cmds[1..]);
        var rest := RunInOrder(cmds[1..]);
        assert cmds[..|rest.ran| + 1] == [cmds[0]] + cmds[1..][..|rest.ran|];
        if rest.err.Some? {
          var i :| 0 <= i < |cmds[1..]| && !(ssh.opens(cmds[1..][i]) && ssh.reply(cmds[1..][i]).Output?);
          assert !(ssh.opens(cmds[i + 1]) && ssh.reply(cmds[i + 1]).Output?);
        }
      }
    }

    /**
     * With `ls -ldn` printing a listing (however padded and terminated) whose
     * third and fourth fields are the ids, and `getent` printing each name on
     * a line, `GetFileOwnership` returns the two names.
     */
    lemma {:induction false} GetFileOwnershipOfListing(path: Path, listing: seq<string>, gaps: seq<string>,
                                                      user: string, group: string)
      requires |listing| >= 4 && AllWords(listing) && IsGaps(listing, gaps)
      requires IsWord(user) && IsWord(group)
      requires ssh.opens(LsNumeric(path)) && ssh.reply(LsNumeric(path)) == Output(Layout(listing, gaps))
      requires ssh.opens(PasswdName(listing[2])) && ssh.reply(PasswdName(listing[2])) == Output(user + "\n")
      requires ssh.opens(GroupName(listing[3])) && ssh.reply(GroupName(listing[3])) == Output(group + "\n")
      ensures GetFileOwnership(path) == Ok(FileOwnership(user, group))
    {
      LsIdsOfListing(listing, gaps);
      TrimSpaceLine(user);
      TrimSpaceLine(group);
    }

    /**
     * The `chown` `SetFileOwnership` runs, case by case: both halves as asked;
     * only the user keeps the current group; only the group keeps the current
     * user; a failed lookup of the current ownership runs nothing.
     */
    lemma SetFileOwnershipCommand(path: Path, want: FileOwnership)
      ensures want.user != "" && want.group != "" ==>
        SetFileOwnership(path, Some(want), true).ran == [Chown(want.user, want.group, path)]
      ensures want.user != "" && want.group == "" && GetFileOwnership(path).Ok? ==>
        SetFileOwnership(path, Some(want), true).ran == [Chown(want.user, GetFileOwnership(path).value.group, path)]
      ensures want.user == "" && want.group != "" && GetFileOwnership(path).Ok? ==>
        SetFileOwnership(path, Some(want), true).ran == [Chown(GetFileOwnership(path).value.user, want.group, path)]
      ensures NeedsLookup(want) && GetFileOwnership(path).Err? ==>
        SetFileOwnership(path, Some(want), true) == Applied(Some(CurrentOwnershipFailed(GetFileOwnership(path).error)), [])
    {
    }

    /** `GetFileAttributes`: the flags parsed from `lsattr -d` output. */
    function GetFileAttributes(path: Path): (r: Result<FileAttributes, ClientError>)
      ensures r.Ok? <==> Run(Lsattr(path)).Ok?
      ensures r.Ok? ==> r.value == ParseLsattr(Run(Lsattr(path)).value)
    {
      match Run(Lsattr(path))
      case Err(e) => Err(e)
      case Ok(output) => Ok(ParseLsattr(output))
    }

    /** `lsattr -d` printing a flag field for `a`, then anything (the path and a newline), gives back `a`. */
    lemma GetFileAttributesOfLsattr(path: Path, a: FileAttributes, field: string, rest: string)
      requires IsLsattrField(a, field)
      requires ssh.opens(Lsattr(path)) && ssh.reply(Lsattr(path)) == Output(field + rest)
      ensures GetFileAttributes(path) == Ok(a)
    {
      ParseLsattrLine(a, field, rest);
    }

    /**
     * `SetFileAttributes`: nothing for no request; otherwise read the current
     * flags, then `chattr +` the letters to set and `chattr -` the letters to
     * clear, each command only when it has letters, on its own session.
     */
    method SetFileAttributes(path: Path, attrs: Option<FileAttributes>) returns (r: Applied)
      ensures attrs.None? ==> r == Applied(None, [])
      ensures attrs.Some? && GetFileAttributes(path).Err? ==> r == Applied(Some(GetFileAttributes(path).error), [])
      ensures attrs.Some? && GetFileAttributes(path).Ok? ==>
        r == RunInOrder(ChattrPlan(path, attrs.value, GetFileAttributes(path).value))
    {
      if attrs.None? {
        return Applied(None, []);
      }
      var desired := attrs.value;
      var got := GetFileAttributes(path);
      if got.Err? {
        return Applied(Some(got.error), []);
      }
      var current := got.value;
      var add, remove := AttributeChanges(desired, current);
      r := RunChattrs(path, add, remove);
    }

    /**
     * The two command steps of `SetFileAttributes`: `chattr +add` if there
     * is anything to add, then `chattr -remove` if there is anything to
     * remove, each on a new session, stopping at the first failure.
     */
    method RunChattrs(path: Path, add: string, remove: string) returns (r: Applied)
      ensures r == RunInOrder(ChattrCommands(path, add, remove))
    {
      ghost var minus := if remove != [] then [Chattr('-', remove, path)] else [];
      ghost var plan := ChattrCommands(path, add, remove);
      assert add != [] ==> plan[1..] == minus;
      assert add == [] ==> plan == minus;
      var ran: seq<Command> := [];
      if |add| > 0 {
        var cmd := Chattr('+', add, path);
        if !ssh.opens(cmd) {
          return Applied(Some(SessionFailed), ran);
        }
        ran := ran + [cmd];
        if ssh.reply(cmd).RunFailed? {
          return Applied(Some(CommandFailed(cmd)), ran);
        }
      }
      if |remove| > 0 {
        var cmd := Chattr('-', remove, path);
        if !ssh.opens(cmd) {
          return Applied(Some(SessionFailed), ran);
        }
        ran := ran + [cmd];
        if ssh.reply(cmd).RunFailed? {
          return Applied(Some(CommandFailed(cmd)), ran);
        }
        assert minus[1..] == [];
      }
      assert RunInOrder(minus) == Applied(None, minus);
      return Applied(None, ran);
    }
  }

  /**
   * The letters `SetFileAttributes` collects, walking the flags in the order
   * `iadSAcCu`: those to set (wanted, not present) and those to clear
   * (present, not wanted).
   */
  method AttributeChanges(desired: FileAttributes, current: FileAttributes) returns (add: string, remove: string)
    ensures add == Added(desired, current) && remove == Removed(desired, current)
  {
    add, remove := "", "";
    for i := 0 to |FlagOrder|
      invariant add == Diff(true, desired, current, i)
      invariant remove == Diff(false, desired, current, i)
    {
      var c := FlagOrder[i];
      assert Diff(true, desired, current, i + 1) == add + if Flag(desired, c) && !Flag(current, c) then [c] else [];
      assert Diff(false, desired, current, i + 1) == remove + if !Flag(desired, c) && Flag(current, c) then [c] else [];
      if Flag(desired, c) && !Flag(current, c) {
        add := add + [c];
      } else if !Flag(desired, c) && Flag(current, c) {
        remove := remove + [c];
      }
    }
  }

  /** The `chattr` commands that turn `current` into `desired`: those for the added and the removed letters. */
  function ChattrPlan(path: Path, desired: FileAttributes, current: FileAttributes): seq<Command> {
    ChattrCommands(path, Added(desired, current), Removed(desired, current))
  }

  /**
   * `chattr +add path` if `add` has letters, then `chattr -remove path` if
   * `remove` has letters: at most two commands, the `+` one first.
   */
  function ChattrCommands(path: Path, add: string, remove: string): (plan: seq<Command>)
    ensures |plan| == (if add != [] then 1 else 0) + (if remove != [] then 1 else 0)
    ensures forall i :: 0 <= i < |plan| ==> plan[i].Chattr? && plan[i].path == path && plan[i].flags != []
    ensures forall i :: 0 <= i < |plan| ==> plan[i].flags == if plan[i].sign == '+' then add else remove
    ensures forall i, j :: 0 <= i < j < |plan| ==> plan[i].sign == '+' && plan[j].sign == '-'
  {
    (if add != [] then [Chattr('+', add, path)] else []) + (if remove != [] then [Chattr('-', remove, path)] else [])
  }

  /**
   * A flag the request leaves false is cleared when the file has it: the
   * plan ends with a `chattr -` naming it. Asking for `{immutable}` on an
   * append-only file therefore removes `a`; the flags not asked for are not
   * left as they were.
   */
  lemma ChattrPlanClearsUnrequested(path: Path, desired: FileAttributes, current: FileAttributes, c: char)
    requires IsFlag(c) && !Flag(desired, c) && Flag(current, c)
    ensures var plan := ChattrPlan(path, desired, current);
      plan != [] && plan[|plan| - 1] == Chattr('-', Removed(desired, current), path) && c in plan[|plan| - 1].flags
  {
    var k := FlagIndex(c);
    assert FlagOrder[..|FlagOrder|][k] == c;
  }

  /** What running `chattr` commands does to a file's attributes. */
  function ApplyChattrs(a: FileAttributes, cmds: seq<Command>): FileAttributes
    decreases |cmds|
  {
    if cmds == [] then a
    else
      var c := cmds[0];
      var next := if c.Chattr? then WithFlags(a, c.flags, c.sign == '+') else a;
      ApplyChattrs(next, cmds[1..])
  }

  /** Running the whole `chattr` plan gives the file exactly the requested attributes. */
  lemma {:induction false} ChattrPlanReachesDesired(path: Path, desired: FileAttributes, current: FileAttributes)
    ensures ApplyChattrs(current, ChattrPlan(path, desired, current)) == desired
  {
    ApplyChattrCommands(current, path, Added(desired, current), Removed(desired, current));
    DiffReachesDesired(desired, current);
  }

  /** Running the commands for `add` and `remove` is `chattr +add` followed by `chattr -remove`. */
  lemma {:induction false} ApplyChattrCommands(a: FileAttributes, path: Path, add: string, remove: string)
    ensures ApplyChattrs(a, ChattrCommands(path, add, remove)) == WithFlags(WithFlags(a, add, true), remove, false)
  {
    var mid := WithFlags(a, add, true);
    assert add == [] ==> mid == a;
    assert remove == [] ==> WithFlags(mid, remove, false) == mid;
    var plan := ChattrCommands(path, add, remove);
    var minus := if remove != [] then [Chattr('-', remove, path)] else [];
    assert ApplyChattrs(mid, minus) == WithFlags(mid, remove, false);
    if add != [] {
      assert plan == [Chattr('+', add, path)] + minus;
      assert plan[1..] == minus;
    } else {
      assert plan == minus;
    }
  }

  /**
   * `NewSSHClient`: fails with the first of a key that does not parse, no
   * credential, a failed dial, a failed SFTP channel; otherwise a new client
   * for the dial address and the chosen authentication.
   */
  method NewSSHClient(config: SSHConfig, t: Transport, ssh: Shell, sftp: RemoteFs) returns (r: Result<SSHClient, ClientError>)
    ensures r.Err? <==> ConnectFailure(config, t).Some?
    ensures r.Err? ==> r.error == ConnectFailure(config, t).value
    ensures r.Ok? ==>
      && fresh(r.value)
      && r.value.address == DialAddress(config.host, config.port, t.hostIsIP)
      && r.value.auth == AuthMethods(config, t.keyParses).value
      && r.value.ssh == ssh && r.value.sftp == sftp
  {
    var methods := AuthMethods(config, t.keyParses);
    if methods.Err? {
      return Err(methods.error);
    }
    var address := DialAddress(config.host, config.port, t.hostIsIP);
    if !t.dialSucceeds {
      return Err(ConnectFailed);
    }
    if !t.sftpSucceeds {
      return Err(SftpFailed);
    }
    var c := new SSHClient(address, methods.value, ssh, sftp);
    return Ok(c);
  }
}
