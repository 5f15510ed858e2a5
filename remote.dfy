/**
 * The remote side of a session, as the client sees it: the file tree
 * reached over SFTP, and the one-shot shell commands run on SSH sessions.
 * The SFTP server and the remote tools are not part of this model; they are
 * abstract primitives whose failures are oracle inputs.
 */
module Remote {
  import opened Text

  type Path = string

  datatype Node = Dir(mode: nat) | File(content: string, mode: nat)

  /** The SFTP requests the client makes. */
  datatype Request = StatReq | MkdirAllReq | ChmodReq | CreateReq | WriteReq

  /**
   * Which requests the server refuses for which path, for a reason other than
   * the state of the tree (permission denied, a lost connection, ...).
   */
  type IoFaults = (Request, Path) -> bool

  /** `filepath.Dir` for a path without `//`, `.` or `..` elements. */
  function ParentDir(p: Path): (d: Path)
    ensures |d| <= |p| || d == "." || d == "/"
  {
    var i := LastIndexOf(p, '/');
    if i < 0 then "." else if i == 0 then "/" else p[..i]
  }

  /** The directories above `p`, up to "/" or the first relative element. */
  function Ancestors(p: Path): (r: set<Path>)
    ensures forall a :: a in r ==> |a| < |p|
    decreases |p|
  {
    var d := ParentDir(p);
    if d != "." && |d| < |p| then {d} + Ancestors(d) else {}
  }

  /** What `MkdirAll(p)` has to make: `p` and every directory above it. */
  function MkdirTargets(p: Path): set<Path> {
    Ancestors(p) + {p}
  }

  /** `MkdirAll(p)` fails when `p` or a directory above it is a file. */
  predicate MkdirAllBlocked(nodes: map<Path, Node>, p: Path) {
    exists a :: a in MkdirTargets(p) && a in nodes && nodes[a].File?
  }

  /** The tree after a successful `MkdirAll(p)`: missing targets become directories of the server's default mode. */
  function MkdirAllNodes(nodes: map<Path, Node>, p: Path, dirMode: nat): map<Path, Node> {
    nodes + map a | a in MkdirTargets(p) && a !in nodes :: Dir(dirMode)
  }

  /** A successful `MkdirAll(p)` leaves `p` and every directory above it a directory and changes nothing that existed. */
  lemma MkdirAllMakesDirectories(nodes: map<Path, Node>, p: Path, dirMode: nat)
    requires !MkdirAllBlocked(nodes, p)
    ensures var r := MkdirAllNodes(nodes, p, dirMode);
      && (forall a :: a in MkdirTargets(p) ==> a in r && r[a].Dir?)
      && (forall k :: k in nodes ==> k in r && r[k] == nodes[k])
      && (forall k :: k in r && k !in nodes ==> k in MkdirTargets(p) && r[k] == Dir(dirMode))
  {
  }

  /** `Chmod` keeps the node's kind and content. */
  function WithMode(n: Node, mode: nat): Node {
    match n
    case Dir(_) => Dir(mode)
    case File(c, _) => File(c, mode)
  }

  /** Writing `data` at offset 0 of a file that held `before`. */
  function WriteAtStart(before: string, data: string): (r: string)
    ensures |r| == if |before| > |data| then |before| else |data|
    ensures r[..|data|] == data
  {
    if |before| > |data| then data + before[|data|..] else data
  }

  predicate ParentIsDir(nodes: map<Path, Node>, p: Path) {
    ParentDir(p) in nodes && nodes[ParentDir(p)].Dir?
  }

  datatype StatResult = Found(node: Node) | NotExist | StatFailed

  /** `Stat` on a tree: the node at `path`, "does not exist", or a refused request. */
  function StatOf(nodes: map<Path, Node>, path: Path, io: IoFaults): (r: StatResult)
    ensures r.Found? <==> !io(StatReq, path) && path in nodes
    ensures r.Found? ==> r.node == nodes[path]
    ensures r.NotExist? <==> !io(StatReq, path) && path !in nodes
  {
    if io(StatReq, path) then StatFailed
    else if path in nodes then Found(nodes[path])
    else NotExist
  }

  /**
   * The remote file tree as reached through one SFTP channel. The modes the
   * server gives to what it creates without explicit attributes (its umask)
   * are constants of the server.
   */
  class RemoteFs {
    var nodes: map<Path, Node>
    const dirMode: nat
    const fileMode: nat

    constructor (nodes: map<Path, Node>, dirMode: nat, fileMode: nat)
      ensures this.nodes == nodes && this.dirMode == dirMode && this.fileMode == fileMode
    {
      this.nodes := nodes;
      this.dirMode := dirMode;
      this.fileMode := fileMode;
    }

    /** `Stat`: the node at `path`, "does not exist", or another failure. */
    function Stat(path: Path, io: IoFaults): (r: StatResult)
      reads this
      ensures r == StatOf(nodes, path, io)
    {
      StatOf(nodes, path, io)
    }

    /** `MkdirAll`: succeeds when nothing in the way is a file; a failure changes nothing. */
    method MkdirAll(path: Path, io: IoFaults) returns (ok: bool)
      modifies this
      ensures ok == (!io(MkdirAllReq, path) && !MkdirAllBlocked(old(nodes), path))
      ensures nodes == if ok then MkdirAllNodes(old(nodes), path, dirMode) else old(nodes)
    {
      ok := !io(MkdirAllReq, path) && !MkdirAllBlocked(nodes, path);
      if ok {
        nodes := MkdirAllNodes(nodes, path, dirMode);
      }
    }

    /** `Chmod`: sets the mode of an existing node. */
    method Chmod(path: Path, mode: nat, io: IoFaults) returns (ok: bool)
      modifies this
      ensures ok == (!io(ChmodReq, path) && path in old(nodes))
      ensures nodes == if ok then old(nodes)[path := WithMode(old(nodes)[path], mode)] else old(nodes)
    {
      ok := !io(ChmodReq, path) && path in nodes;
      if ok {
        nodes := nodes[path := WithMode(nodes[path], mode)];
      }
    }

    /**
     * `Create`: opens `path` for writing, creating it in an existing directory
     * or truncating the file already there (which keeps its mode).
     */
    method Create(path: Path, io: IoFaults) returns (ok: bool)
      modifies this
      ensures ok == (!io(CreateReq, path) && ParentIsDir(old(nodes), path)
                     && !(path in old(nodes) && old(nodes)[path].Dir?))
      ensures nodes == if !ok then old(nodes)
                       else old(nodes)[path := File("", if path in old(nodes) then old(nodes)[path].mode else fileMode)]
    {
      ok := !io(CreateReq, path) && ParentIsDir(nodes, path) && !(path in nodes && nodes[path].Dir?);
      if ok {
        var mode := if path in nodes then nodes[path].mode else fileMode;
        nodes := nodes[path := File("", mode)];
      }
    }

    /** `Write` on a handle just opened on `path`: writes `data` at offset 0. */
    method Write(path: Path, data: string, io: IoFaults) returns (ok: bool)
      modifies this
      ensures ok == (!io(WriteReq, path) && path in old(nodes) && old(nodes)[path].File?)
      ensures nodes == if !ok then old(nodes)
                       else old(nodes)[path := File(WriteAtStart(old(nodes)[path].content, data), old(nodes)[path].mode)]
    {
      ok := !io(WriteReq, path) && path in nodes && nodes[path].File?;
      if ok {
        var n := nodes[path];
        nodes := nodes[path := File(WriteAtStart(n.content, data), n.mode)];
      }
    }
  }

  /** The shell commands the client runs on a fresh SSH session, by their format arguments. */
  datatype Command =
    | LsNumeric(path: Path)                          // ls -ldn %q
    | PasswdName(uid: string)                        // getent passwd %s | cut -d: -f1
    | GroupName(gid: string)                         // getent group %s | cut -d: -f1
    | Chown(user: string, group: string, path: Path) // chown %s:%s %q
    | Lsattr(path: Path)                             // lsattr -d %q
    | Chattr(sign: char, flags: string, path: Path)  // chattr +%s %q / chattr -%s %q

  datatype Reply = Output(text: string) | RunFailed

  /** The remote host's answers: whether a session could be opened for a command, and what running it gave. */
  datatype Shell = Shell(opens: Command -> bool, reply: Command -> Reply)
}
