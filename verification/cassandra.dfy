/** The Cassandra side of pkg/snappy/cassandra.go: lookups in the parsed cassandra.yaml, the
    outcome of `nodetool snapshot`, and the snapshot manifest that maps every file of a snapshot
    to its remote key. The local file system is a tree per configured data directory, whose
    directory listings stand for what ioutil.ReadDir returns. */
module Cassandra {
  import opened Results
  import opened Strings
  import opened Paths

  // ---------------------------------------------------------------- cassandra.yaml

  /** A value of the parsed configuration: a string, a boolean, a list, or anything else. */
  datatype Value = Str(s: string) | Bool(b: bool) | List(items: seq<Value>) | Other

  type Config = map<string, Value>

  const DataFileDirectories: string := "data_file_directories"
  const ListenAddress: string := "listen_address"
  const InitialToken: string := "initial_token"
  const AutoBootstrap: string := "auto_bootstrap"

  /** Panic texts of failed type assertions on the parsed configuration. */
  const DirectoriesNotList: string := "interface conversion: data_file_directories is not a list"
  const DirectoryNotString: string := "interface conversion: data directory is not a string"
  const ListenAddressNotString: string := "interface conversion: listen_address is not a string"

  /** GetDataDirectories: the configured data directories in configuration order, none when the
      setting is absent. A setting that is not a list of strings makes the source's type
      assertions panic; here that is an error. */
  method GetDataDirectories(config: Config) returns (r: Result<seq<string>>)
    ensures DataFileDirectories !in config ==> r == Ok([])
    ensures DataFileDirectories in config ==>
      (r.Ok? <==> config[DataFileDirectories].List? &&
                  forall v :: v in config[DataFileDirectories].items ==> v.Str?)
    ensures DataFileDirectories in config && r.Ok? ==>
      && |r.value| == |config[DataFileDirectories].items|
      && forall i :: 0 <= i < |r.value| ==> config[DataFileDirectories].items[i] == Str(r.value[i])
  {
    var directories: seq<string> := [];
    if DataFileDirectories in config {
      var dataDirs := config[DataFileDirectories];
      if !dataDirs.List? {
        return Err(DirectoriesNotList);
      }
      for i := 0 to |dataDirs.items|
        invariant |directories| == i
        invariant forall j :: 0 <= j < i ==> dataDirs.items[j] == Str(directories[j])
      {
        var dir := dataDirs.items[i];
        if !dir.Str? {
          return Err(DirectoryNotString);
        }
        directories := directories + [dir.s];
      }
    }
    return Ok(directories);
  }

  /** GetListenAddress: the configured listen_address when there is one, otherwise the address
      found on the local interfaces (`localIP`, an error when none was found). */
  function GetListenAddress(config: Config, localIP: Result<string>): (r: Result<string>)
    ensures ListenAddress in config ==> (r.Ok? <==> config[ListenAddress].Str?)
    ensures ListenAddress in config && r.Ok? ==> r.value == config[ListenAddress].s
    ensures ListenAddress !in config ==> r == localIP
  {
    if ListenAddress in config then
      match config[ListenAddress]
      case Str(s) => Ok(s)
      case _ => Err(ListenAddressNotString)
    else localIP
  }

  // ---------------------------------------------------------------- nodetool snapshot

  /** What starting and waiting for `nodetool snapshot -t <id>` came to. */
  datatype ToolRun =
    | StartFailed(reason: string)
    | Succeeded
    | Exited(status: int)
    | ExitedWithoutStatus
    | WaitFailed(reason: string)

  function SnapshotExistsMessage(id: string): string {
    "snapshot already exists for [" + id + "]"
  }

  function ExitStatusMessage(status: int): string {
    "Exit Status: " + IntToDecimal(status)
  }

  /** CreateSnapshot: `(true, nil)` on success; exit status 2 means the snapshot already exists;
      any other exit status is reported by number. An exit error that carries no Unix wait
      status falls through to success, as the source's nested type checks do. */
  function CreateSnapshot(id: string, run: ToolRun): (r: (bool, Option<string>))
    ensures r.0 <==> r.1.None?
    ensures r.0 <==> run.Succeeded? || run.ExitedWithoutStatus?
    ensures run.StartFailed? ==> r.1 == Some(run.reason)
    ensures run.WaitFailed? ==> r.1 == Some("cmd.Wait: " + run.reason)
    ensures run.Exited? && run.status == 2 ==> r.1 == Some(SnapshotExistsMessage(id))
    ensures run.Exited? && run.status != 2 ==> r.1 == Some(ExitStatusMessage(run.status))
  {
    match run
    case StartFailed(reason) => (false, Some(reason))
    case Succeeded => (true, None)
    case Exited(status) =>
      if status == 2 then (false, Some(SnapshotExistsMessage(id)))
      else (false, Some(ExitStatusMessage(status)))
    case ExitedWithoutStatus => (true, None)
    case WaitFailed(reason) => (false, Some("cmd.Wait: " + reason))
  }

  /** The "already exists" report cannot be mistaken for another exit status, and an exit
      status report names its status exactly. */
  lemma ExitReportsDistinct(id: string, status: nat)
    ensures ExitStatusMessage(status) != SnapshotExistsMessage(id)
    ensures |ExitStatusMessage(status)| > 13 && ExitStatusMessage(status)[..13] == "Exit Status: "
    ensures DecimalValue(ExitStatusMessage(status)[13..]) == status
  {
    assert ExitStatusMessage(status)[0] == 'E';
    assert SnapshotExistsMessage(id)[0] == 's';
    assert ExitStatusMessage(status)[13..] == NatToDecimal(status);
    DecimalRoundTrip(status);
  }

  // ---------------------------------------------------------------- the local file system

  /** A regular file of some size, or a directory listing in ReadDir order. */
  datatype Node = File(size: nat) | Dir(entries: seq<Entry>)
  datatype Entry = Entry(name: string, node: Node)

  /** The subtree of each configured data directory; a missing key cannot be read. */
  type DataDirs = map<string, Node>

  /** Names in a listing are distinct valid segments, and so on below it: what a real directory
      tree looks like. */
  predicate WellFormed(node: Node)
    decreases node
  {
    match node
    case File(_) => true
    case Dir(es) => EntriesWellFormed(es)
  }

  predicate EntriesWellFormed(es: seq<Entry>)
    decreases es
  {
    && (forall i, j :: 0 <= i < j < |es| ==> es[i].name != es[j].name)
    && (forall i :: 0 <= i < |es| ==> ValidSegment(es[i].name))
    && (es != [] ==> WellFormed(es[0].node) && EntriesWellFormed(es[1..]))
  }

  /** The first entry of a listing with the given name. */
  function Child(es: seq<Entry>, name: string): (r: Option<Node>)
    ensures r.Some? ==> exists i :: 0 <= i < |es| && es[i] == Entry(name, r.value)
    ensures r.None? ==> forall i :: 0 <= i < |es| ==> es[i].name != name
  {
    if es == [] then None
    else if es[0].name == name then Some(es[0].node)
    else Child(es[1..], name)
  }

  /** What os.Stat finds at a path below a node: a node, nothing, or a regular file standing
      where a directory was expected (ENOTDIR, which os.IsNotExist does not recognise). */
  datatype Probe = Found(node: Node) | Absent | NotADirectory

  function Lookup(node: Node, path: seq<string>): Probe
    decreases |path|
  {
    if path == [] then Found(node)
    else
      match node
      case File(_) => NotADirectory
      case Dir(es) =>
        match Child(es, path[0])
        case None => Absent
        case Some(n) => Lookup(n, path[1..])
  }

  /** The names of the directory entries of a listing, in listing order. */
  function SubdirNames(es: seq<Entry>): seq<string>
  {
    if es == [] then []
    else
      var last := es[|es| - 1];
      SubdirNames(es[..|es| - 1]) + (if last.node.Dir? then [last.name] else [])
  }

  /** A name is listed exactly when some entry of that name is a directory. */
  lemma {:induction false} SubdirNamesAreDirectories(es: seq<Entry>, name: string)
    ensures name in SubdirNames(es) <==> exists i :: 0 <= i < |es| && es[i].name == name && es[i].node.Dir?
  {
    if es != [] {
      var init := es[..|es| - 1];
      SubdirNamesAreDirectories(init, name);
      if name in SubdirNames(init) {
        var i :| 0 <= i < |init| && init[i].name == name && init[i].node.Dir?;
        assert es[i] == init[i];
      }
      if exists i :: 0 <= i < |es| && es[i].name == name && es[i].node.Dir? {
        var i :| 0 <= i < |es| && es[i].name == name && es[i].node.Dir?;
        if i < |init| {
          assert init[i] == es[i];
        }
      }
    }
  }

  /** The loop that keeps the directory entries of a ReadDir listing. */
  method ListSubdirs(es: seq<Entry>) returns (names: seq<string>)
    ensures names == SubdirNames(es)
  {
    names := [];
    for i := 0 to |es|
      invariant names == SubdirNames(es[..i])
    {
      assert es[..i + 1][..i] == es[..i];
      if es[i].node.Dir? {
        names := names + [es[i].name];
      }
    }
    assert es[..|es|] == es;
  }

  /** The paths below a node of the regular files that filepath.Walk visits, in visiting order;
      a regular file at the root itself is visited with the empty path. */
  function WalkFiles(node: Node): seq<seq<string>>
    decreases node
  {
    match node
    case File(_) => [[]]
    case Dir(es) => WalkEntries(es)
  }

  function WalkEntries(es: seq<Entry>): seq<seq<string>>
    decreases es
  {
    if es == [] then []
    else
      var sub := WalkFiles(es[0].node);
      seq(|sub|, i requires 0 <= i < |sub| => [es[0].name] + sub[i]) + WalkEntries(es[1..])
  }

  // ---------------------------------------------------------------- the snapshot manifest

  /** A local file: the data directory it lies under and the segments below that directory.
      Its path in the source is the data directory joined with the segments. */
  datatype LocalPath = LocalPath(dataDir: string, segments: seq<string>)

  /** The local-file-to-remote-key map GetSnapshotFiles returns. */
  type Manifest = map<LocalPath, string>

  /** The snapshot id and node address every key of one manifest carries. */
  datatype KeyScope = KeyScope(id: string, node: string)

  /** The segments of a table's snapshot directory below its data directory, cleaned as
      filepath.Join cleans them: the snapshot id is split at its slashes, and empty, "." and ".."
      segments are resolved. Names read from a directory listing never hold a slash. */
  function SnapshotSegments(ks: string, table: string, id: string): seq<string> {
    CleanSegments([], [ks, table, "snapshots"] + SplitOn(id, '/'), false)
  }

  /** For a keyspace, a table and a snapshot id that are one path segment each, the snapshot
      directory is `<ks>/<table>/snapshots/<id>`. */
  lemma SnapshotSegmentsOfSegments(ks: string, table: string, id: string)
    requires ValidSegment(ks) && ValidSegment(table) && ValidSegment(id)
    ensures SnapshotSegments(ks, table, id) == [ks, table, "snapshots", id]
  {
    SplitOnNoSeparator(id, '/');
    var v := [ks, table, "snapshots", id];
    assert [ks, table, "snapshots"] + SplitOn(id, '/') == v + [];
    CleanSegmentsKeepsValid([], v, [], false);
    assert [] + v == v;
  }

  /** The snapshot directory of a table, as the source writes it. */
  function TableDir(dataDir: string, ks: string, table: string, id: string): string {
    FilepathJoin([dataDir, ks, table, "snapshots", id])
  }

  /** The remote key of the file at `rel` below a table's snapshot directory: the walked path
      with the snapshot directory and its slash trimmed, under backups/<id>/<node>/<ks>/<table>.
      A regular file at the snapshot directory itself has nothing trimmed, so its whole path
      is appended. */
  function RemoteKey(dataDir: string, scope: KeyScope, ks: string, table: string, rel: seq<string>): string {
    var remotePath := if rel == [] then TableDir(dataDir, ks, table, scope.id) else Slashed(rel);
    FilepathJoin(["backups", scope.id, scope.node, ks, table, remotePath])
  }

  /** The Walk callback applied to each walked file in turn. */
  function AddFiles(m: Manifest, dataDir: string, scope: KeyScope, ks: string, table: string,
                    files: seq<seq<string>>): Manifest
    decreases |files|
  {
    if files == [] then m
    else
      var p := LocalPath(dataDir, SnapshotSegments(ks, table, scope.id) + files[0]);
      AddFiles(m[p := RemoteKey(dataDir, scope, ks, table, files[0])], dataDir, scope, ks, table, files[1..])
  }

  /** One table: nothing when it has no snapshot directory of this id; its walked files when it
      has; an error when a regular file stands in the way. */
  function TableManifest(m: Manifest, root: Node, dataDir: string, scope: KeyScope, ks: string, table: string): Result<Manifest>
  {
    match Lookup(root, SnapshotSegments(ks, table, scope.id))
    case Absent => Ok(m)
    case NotADirectory => Err("lstat " + TableDir(dataDir, ks, table, scope.id) + ": not a directory")
    case Found(n) => Ok(AddFiles(m, dataDir, scope, ks, table, WalkFiles(n)))
  }

  function TablesManifest(m: Manifest, root: Node, dataDir: string, scope: KeyScope, ks: string, tables: seq<string>): Result<Manifest>
    decreases |tables|
  {
    if tables == [] then Ok(m)
    else
      match TableManifest(m, root, dataDir, scope, ks, tables[0])
      case Err(e) => Err(e)
      case Ok(m') => TablesManifest(m', root, dataDir, scope, ks, tables[1..])
  }

  /** One keyspace directory: its table directories in listing order. Reading a keyspace that
      is not a directory of this data directory fails. */
  function KeyspaceManifest(m: Manifest, root: Node, dataDir: string, scope: KeyScope, ks: string): Result<Manifest>
  {
    match Lookup(root, [ks])
    case Found(Dir(es)) => TablesManifest(m, root, dataDir, scope, ks, SubdirNames(es))
    case _ => Err("open " + FilepathJoin([dataDir, ks]) + ": not a directory")
  }

  function KeyspacesManifest(m: Manifest, root: Node, dataDir: string, scope: KeyScope, kss: seq<string>): Result<Manifest>
    decreases |kss|
  {
    if kss == [] then Ok(m)
    else
      match KeyspaceManifest(m, root, dataDir, scope, kss[0])
      case Err(e) => Err(e)
      case Ok(m') => KeyspacesManifest(m', root, dataDir, scope, kss[1..])
  }

  /** The path filepath.Walk reports for a file of the manifest. */
  function WalkedPath(p: LocalPath): string {
    FilepathJoin([p.dataDir] + p.segments)
  }

  /** The data directory's own listing, or an error when it cannot be read. */
  function ReadDataDir(fs: DataDirs, dataDir: string): Result<seq<Entry>> {
    if dataDir in fs && fs[dataDir].Dir? then Ok(fs[dataDir].entries)
    else Err("open " + dataDir + ": not a directory")
  }

  /** The data directories in turn, each scanned for its own keyspace directories. */
  function DataDirsManifest(m: Manifest, fs: DataDirs, scope: KeyScope, dataDirs: seq<string>): Result<Manifest>
    decreases |dataDirs|
  {
    if dataDirs == [] then Ok(m)
    else
      match ReadDataDir(fs, dataDirs[0])
      case Err(e) => Err(e)
      case Ok(es) =>
        match KeyspacesManifest(m, fs[dataDirs[0]], dataDirs[0], scope, SubdirNames(es))
        case Err(e) => Err(e)
        case Ok(m') => DataDirsManifest(m', fs, scope, dataDirs[1..])
  }

  /** The data directories in turn as the source scans them: the keyspace list is never reset,
      so each data directory is scanned for the keyspaces of every data directory so far. */
  function DataDirsManifestAsWritten(m: Manifest, kss: seq<string>, fs: DataDirs, scope: KeyScope,
                                     dataDirs: seq<string>): Result<Manifest>
    decreases |dataDirs|
  {
    if dataDirs == [] then Ok(m)
    else
      match ReadDataDir(fs, dataDirs[0])
      case Err(e) => Err(e)
      case Ok(es) =>
        var kss' := kss + SubdirNames(es);
        match KeyspacesManifest(m, fs[dataDirs[0]], dataDirs[0], scope, kss')
        case Err(e) => Err(e)
        case Ok(m') => DataDirsManifestAsWritten(m', kss', fs, scope, dataDirs[1..])
  }

  /** The Walk over one table's snapshot directory, filling the manifest. */
  method ScanTable(m: Manifest, root: Node, dataDir: string, scope: KeyScope, ks: string, table: string)
    returns (r: Result<Manifest>)
    ensures r == TableManifest(m, root, dataDir, scope, ks, table)
  {
    match Lookup(root, SnapshotSegments(ks, table, scope.id))
    case Absent =>
      return Ok(m);
    case NotADirectory =>
      return Err("lstat " + TableDir(dataDir, ks, table, scope.id) + ": not a directory");
    case Found(n) =>
      var files := WalkFiles(n);
      var acc := m;
      for i := 0 to |files|
        invariant AddFiles(m, dataDir, scope, ks, table, files) == AddFiles(acc, dataDir, scope, ks, table, files[i..])
      {
        assert files[i..][1..] == files[i + 1..];
        var path := LocalPath(dataDir, SnapshotSegments(ks, table, scope.id) + files[i]);
        acc := acc[path := RemoteKey(dataDir, scope, ks, table, files[i])];
      }
      return Ok(acc);
  }

  /** One keyspace: read its directory, keep the table directories, scan each table. */
  method ScanKeyspace(m: Manifest, root: Node, dataDir: string, scope: KeyScope, ks: string)
    returns (r: Result<Manifest>)
    ensures r == KeyspaceManifest(m, root, dataDir, scope, ks)
  {
    var probe := Lookup(root, [ks]);
    if !(probe.Found? && probe.node.Dir?) {
      return Err("open " + FilepathJoin([dataDir, ks]) + ": not a directory");
    }
    var tables := ListSubdirs(probe.node.entries);
    var acc := m;
    for i := 0 to |tables|
      invariant KeyspaceManifest(m, root, dataDir, scope, ks) == TablesManifest(acc, root, dataDir, scope, ks, tables[i..])
    {
      assert tables[i..][1..] == tables[i + 1..];
      var step := ScanTable(acc, root, dataDir, scope, ks, tables[i]);
      if step.Err? {
        return step;
      }
      acc := step.value;
    }
    return Ok(acc);
  }

  /** The keyspace loop of one data directory. */
  method ScanKeyspaces(m: Manifest, root: Node, dataDir: string, scope: KeyScope, kss: seq<string>)
    returns (r: Result<Manifest>)
    ensures r == KeyspacesManifest(m, root, dataDir, scope, kss)
  {
    var acc := m;
    for i := 0 to |kss|
      invariant KeyspacesManifest(m, root, dataDir, scope, kss) == KeyspacesManifest(acc, root, dataDir, scope, kss[i..])
    {
      assert kss[i..][1..] == kss[i + 1..];
      var step := ScanKeyspace(acc, root, dataDir, scope, kss[i]);
      if step.Err? {
        return step;
      }
      acc := step.value;
    }
    return Ok(acc);
  }

  /** GetSnapshotFiles with the keyspace list taken afresh for each data directory. */
  method GetSnapshotFiles(fs: DataDirs, dataDirs: seq<string>, node: string, id: string)
    returns (r: Result<Manifest>)
    ensures r == DataDirsManifest(map[], fs, KeyScope(id, node), dataDirs)
  {
    var scope := KeyScope(id, node);
    var files: Manifest := map[];
    for i := 0 to |dataDirs|
      invariant DataDirsManifest(map[], fs, scope, dataDirs) == DataDirsManifest(files, fs, scope, dataDirs[i..])
    {
      assert dataDirs[i..][1..] == dataDirs[i + 1..];
      var listing := ReadDataDir(fs, dataDirs[i]);
      if listing.Err? {
        return Err(listing.msg);
      }
      var keyspaces := ListSubdirs(listing.value);
      var step := ScanKeyspaces(files, fs[dataDirs[i]], dataDirs[i], scope, keyspaces);
      if step.Err? {
        return step;
      }
      files := step.value;
    }
    return Ok(files);
  }

  /** GetSnapshotFiles as the source writes it: `keyspaces` is declared outside the data
      directory loop and only ever appended to. */
  method GetSnapshotFilesAsWritten(fs: DataDirs, dataDirs: seq<string>, node: string, id: string)
    returns (r: Result<Manifest>)
    ensures r == DataDirsManifestAsWritten(map[], [], fs, KeyScope(id, node), dataDirs)
  {
    var scope := KeyScope(id, node);
    var files: Manifest := map[];
    var keyspaces: seq<string> := [];
    for i := 0 to |dataDirs|
      invariant DataDirsManifestAsWritten(map[], [], fs, scope, dataDirs)
             == DataDirsManifestAsWritten(files, keyspaces, fs, scope, dataDirs[i..])
    {
      assert dataDirs[i..][1..] == dataDirs[i + 1..];
      var listing := ReadDataDir(fs, dataDirs[i]);
      if listing.Err? {
        return Err(listing.msg);
      }
      var found := ListSubdirs(listing.value);
      keyspaces := keyspaces + found;
      var step := ScanKeyspaces(files, fs[dataDirs[i]], dataDirs[i], scope, keyspaces);
      if step.Err? {
        return step;
      }
      files := step.value;
    }
    return Ok(files);
  }
}
