/** What the snapshot manifest of cassandra.go holds: exactly the regular files below the
    `snapshots/<id>` directories of the tables of the configured data directories, each mapped
    to `backups/<id>/<node>/<keyspace>/<table>/<rel>`; keys are distinct within a data directory
    and shared across data directories. */
module SnapshotManifest {
  import opened Results
  import opened Strings
  import opened Paths
  import opened Cassandra

  // ---------------------------------------------------------------- paths in the tree

  /** A regular file lies at `path` below `node`. */
  predicate FileAt(node: Node, path: seq<string>) {
    Lookup(node, path).Found? && Lookup(node, path).node.File?
  }

  /** Looking up a path in two steps. */
  lemma {:induction false} LookupAppend(node: Node, a: seq<string>, b: seq<string>)
    ensures Lookup(node, a).Found? ==> Lookup(node, a + b) == Lookup(Lookup(node, a).node, b)
    ensures !Lookup(node, a).Found? ==> Lookup(node, a + b) == Lookup(node, a)
    decreases |a|
  {
    if a == [] {
      assert a + b == b;
    } else {
      assert (a + b)[0] == a[0] && (a + b)[1..] == a[1..] + b;
      match node
      case File(_) =>
      case Dir(es) =>
        match Child(es, a[0])
        case None =>
        case Some(n) => LookupAppend(n, a[1..], b);
    }
  }

  lemma {:induction false} ChildWellFormed(es: seq<Entry>, name: string)
    requires EntriesWellFormed(es) && Child(es, name).Some?
    ensures ValidSegment(name) && WellFormed(Child(es, name).value)
    decreases |es|
  {
    if es[0].name != name {
      ChildWellFormed(es[1..], name);
    }
  }

  /** What a lookup finds in a well-formed tree is well formed, and its path is made of valid
      segments. */
  lemma {:induction false} LookupWellFormed(node: Node, path: seq<string>)
    requires WellFormed(node) && Lookup(node, path).Found?
    ensures ValidSegments(path) && WellFormed(Lookup(node, path).node)
    decreases |path|
  {
    if path != [] {
      ChildWellFormed(node.entries, path[0]);
      LookupWellFormed(Child(node.entries, path[0]).value, path[1..]);
    }
  }

  /** A name with something below it is a directory of the listing. */
  lemma DirectoryChildListed(es: seq<Entry>, name: string, rest: seq<string>)
    requires |rest| > 0 && Lookup(Dir(es), [name] + rest).Found?
    ensures name in SubdirNames(es)
  {
    assert ([name] + rest)[0] == name && ([name] + rest)[1..] == rest;
    var c := Child(es, name).value;
    assert c.Dir?;
    var i :| 0 <= i < |es| && es[i] == Entry(name, c);
    SubdirNamesAreDirectories(es, name);
  }

  /** The directory names of a well-formed listing are valid segments. */
  lemma SubdirNamesValid(es: seq<Entry>)
    requires EntriesWellFormed(es)
    ensures ValidSegments(SubdirNames(es))
  {
    var names := SubdirNames(es);
    forall i | 0 <= i < |names| ensures ValidSegment(names[i]) {
      SubdirNamesAreDirectories(es, names[i]);
    }
  }

  /** Walk visits only regular files, each once per path. */
  lemma {:induction false} WalkFilesAreFiles(node: Node, rel: seq<string>)
    requires WellFormed(node) && rel in WalkFiles(node)
    ensures FileAt(node, rel)
    decreases node
  {
    match node
    case File(_) =>
    case Dir(es) => WalkEntriesAreFiles(es, rel);
  }

  lemma {:induction false} WalkEntriesAreFiles(es: seq<Entry>, rel: seq<string>)
    requires EntriesWellFormed(es) && rel in WalkEntries(es)
    ensures |rel| > 0 && FileAt(Dir(es), rel)
    decreases es
  {
    var sub := WalkFiles(es[0].node);
    var head := seq(|sub|, i requires 0 <= i < |sub| => [es[0].name] + sub[i]);
    assert WalkEntries(es) == head + WalkEntries(es[1..]);
    if rel in head {
      var k :| 0 <= k < |head| && head[k] == rel;
      WalkFilesAreFiles(es[0].node, sub[k]);
      assert rel[0] == es[0].name && rel[1..] == sub[k];
    } else {
      WalkEntriesAreFiles(es[1..], rel);
      var c := Child(es[1..], rel[0]).value;
      var j :| 0 <= j < |es[1..]| && es[1..][j] == Entry(rel[0], c);
      assert es[j + 1].name == rel[0];
    }
  }

  /** Walk visits every regular file below its root. */
  lemma {:induction false} WalkFilesComplete(node: Node, rel: seq<string>)
    requires FileAt(node, rel)
    ensures rel in WalkFiles(node)
    decreases node
  {
    match node
    case File(_) =>
    case Dir(es) => WalkEntriesComplete(es, rel);
  }

  lemma {:induction false} WalkEntriesComplete(es: seq<Entry>, rel: seq<string>)
    requires FileAt(Dir(es), rel)
    ensures rel in WalkEntries(es)
    decreases es
  {
    var sub := WalkFiles(es[0].node);
    var head := seq(|sub|, i requires 0 <= i < |sub| => [es[0].name] + sub[i]);
    assert WalkEntries(es) == head + WalkEntries(es[1..]);
    if es[0].name == rel[0] {
      WalkFilesComplete(es[0].node, rel[1..]);
      var k :| 0 <= k < |sub| && sub[k] == rel[1..];
      assert head[k] == rel;
    } else {
      WalkEntriesComplete(es[1..], rel);
    }
  }

  // ---------------------------------------------------------------- what the manifest holds

  /** `p` is a regular file below the `snapshots/<id>` directory of a table of its data
      directory. */
  predicate InSnapshot(fs: DataDirs, scope: KeyScope, p: LocalPath) {
    && p.dataDir in fs
    && |p.segments| >= 4 && p.segments[2] == "snapshots" && p.segments[3] == scope.id
    && FileAt(fs[p.dataDir], p.segments)
  }

  /** Every entry of `m` is such a file of one of `dirs`, mapped to its key. */
  predicate ManifestShape(m: Manifest, fs: DataDirs, scope: KeyScope, dirs: set<string>) {
    forall p :: p in m ==>
      && p.dataDir in dirs
      && InSnapshot(fs, scope, p)
      && m[p] == RemoteKey(p.dataDir, scope, p.segments[0], p.segments[1], p.segments[4..])
  }

  predicate AllWellFormed(fs: DataDirs) {
    forall d :: d in fs ==> WellFormed(fs[d])
  }

  lemma {:induction false} AddFilesShape(m: Manifest, fs: DataDirs, dataDir: string, scope: KeyScope,
                                         ks: string, table: string, n: Node, files: seq<seq<string>>, dirs: set<string>)
    requires ManifestShape(m, fs, scope, dirs) && dataDir in dirs && dataDir in fs
    requires ValidSegment(ks) && ValidSegment(table) && ValidSegment(scope.id)
    requires Lookup(fs[dataDir], SnapshotSegments(ks, table, scope.id)) == Found(n) && WellFormed(n)
    requires forall i :: 0 <= i < |files| ==> files[i] in WalkFiles(n)
    ensures ManifestShape(AddFiles(m, dataDir, scope, ks, table, files), fs, scope, dirs)
    decreases |files|
  {
    if files != [] {
      var rel := files[0];
      var segs := SnapshotSegments(ks, table, scope.id);
      var p := LocalPath(dataDir, segs + rel);
      WalkFilesAreFiles(n, rel);
      LookupAppend(fs[dataDir], segs, rel);
      SnapshotSegmentsOfSegments(ks, table, scope.id);
      assert p.segments[0] == ks && p.segments[1] == table && p.segments[4..] == rel;
      var m1 := m[p := RemoteKey(dataDir, scope, ks, table, rel)];
      assert ManifestShape(m1, fs, scope, dirs);
      AddFilesShape(m1, fs, dataDir, scope, ks, table, n, files[1..], dirs);
    }
  }

  lemma TableShape(m: Manifest, fs: DataDirs, dataDir: string, scope: KeyScope, ks: string, table: string, dirs: set<string>)
    requires ManifestShape(m, fs, scope, dirs) && dataDir in dirs && dataDir in fs && WellFormed(fs[dataDir])
    requires ValidSegment(ks) && ValidSegment(table) && ValidSegment(scope.id)
    requires TableManifest(m, fs[dataDir], dataDir, scope, ks, table).Ok?
    ensures ManifestShape(TableManifest(m, fs[dataDir], dataDir, scope, ks, table).value, fs, scope, dirs)
  {
    var segs := SnapshotSegments(ks, table, scope.id);
    if Lookup(fs[dataDir], segs).Found? {
      var n := Lookup(fs[dataDir], segs).node;
      LookupWellFormed(fs[dataDir], segs);
      AddFilesShape(m, fs, dataDir, scope, ks, table, n, WalkFiles(n), dirs);
    }
  }

  lemma {:induction false} TablesShape(m: Manifest, fs: DataDirs, dataDir: string, scope: KeyScope, ks: string,
                                       tables: seq<string>, dirs: set<string>)
    requires ManifestShape(m, fs, scope, dirs) && dataDir in dirs && dataDir in fs && WellFormed(fs[dataDir])
    requires ValidSegment(ks) && ValidSegments(tables) && ValidSegment(scope.id)
    requires TablesManifest(m, fs[dataDir], dataDir, scope, ks, tables).Ok?
    ensures ManifestShape(TablesManifest(m, fs[dataDir], dataDir, scope, ks, tables).value, fs, scope, dirs)
    decreases |tables|
  {
    if tables != [] {
      TableShape(m, fs, dataDir, scope, ks, tables[0], dirs);
      var m1 := TableManifest(m, fs[dataDir], dataDir, scope, ks, tables[0]).value;
      TablesShape(m1, fs, dataDir, scope, ks, tables[1..], dirs);
    }
  }

  lemma {:induction false} KeyspacesShape(m: Manifest, fs: DataDirs, dataDir: string, scope: KeyScope,
                                          kss: seq<string>, dirs: set<string>)
    requires ManifestShape(m, fs, scope, dirs) && dataDir in dirs && dataDir in fs && WellFormed(fs[dataDir])
    requires ValidSegment(scope.id)
    requires KeyspacesManifest(m, fs[dataDir], dataDir, scope, kss).Ok?
    ensures ManifestShape(KeyspacesManifest(m, fs[dataDir], dataDir, scope, kss).value, fs, scope, dirs)
    decreases |kss|
  {
    if kss != [] {
      var probe := Lookup(fs[dataDir], [kss[0]]);
      LookupWellFormed(fs[dataDir], [kss[0]]);
      SubdirNamesValid(probe.node.entries);
      TablesShape(m, fs, dataDir, scope, kss[0], SubdirNames(probe.node.entries), dirs);
      var m1 := KeyspaceManifest(m, fs[dataDir], dataDir, scope, kss[0]).value;
      KeyspacesShape(m1, fs, dataDir, scope, kss[1..], dirs);
    }
  }

  lemma {:induction false} DataDirsShape(m: Manifest, fs: DataDirs, scope: KeyScope, dataDirs: seq<string>, dirs: set<string>)
    requires ManifestShape(m, fs, scope, dirs) && AllWellFormed(fs) && ValidSegment(scope.id)
    requires forall i :: 0 <= i < |dataDirs| ==> dataDirs[i] in dirs
    requires DataDirsManifest(m, fs, scope, dataDirs).Ok?
    ensures ManifestShape(DataDirsManifest(m, fs, scope, dataDirs).value, fs, scope, dirs)
    decreases |dataDirs|
  {
    if dataDirs != [] {
      var d := dataDirs[0];
      KeyspacesShape(m, fs, d, scope, SubdirNames(fs[d].entries), dirs);
      var m1 := KeyspacesManifest(m, fs[d], d, scope, SubdirNames(fs[d].entries)).value;
      DataDirsShape(m1, fs, scope, dataDirs[1..], dirs);
    }
  }

  lemma {:induction false} DataDirsAsWrittenShape(m: Manifest, kss: seq<string>, fs: DataDirs, scope: KeyScope,
                                                  dataDirs: seq<string>, dirs: set<string>)
    requires ManifestShape(m, fs, scope, dirs) && AllWellFormed(fs) && ValidSegment(scope.id)
    requires forall i :: 0 <= i < |dataDirs| ==> dataDirs[i] in dirs
    requires DataDirsManifestAsWritten(m, kss, fs, scope, dataDirs).Ok?
    ensures ManifestShape(DataDirsManifestAsWritten(m, kss, fs, scope, dataDirs).value, fs, scope, dirs)
    decreases |dataDirs|
  {
    if dataDirs != [] {
      var d := dataDirs[0];
      var kss' := kss + SubdirNames(fs[d].entries);
      KeyspacesShape(m, fs, d, scope, kss', dirs);
      var m1 := KeyspacesManifest(m, fs[d], d, scope, kss').value;
      DataDirsAsWrittenShape(m1, kss', fs, scope, dataDirs[1..], dirs);
    }
  }

  // ---------------------------------------------------------------- nothing is missed

  lemma {:induction false} AddFilesCovers(m: Manifest, dataDir: string, scope: KeyScope, ks: string, table: string,
                                          files: seq<seq<string>>)
    ensures m.Keys <= AddFiles(m, dataDir, scope, ks, table, files).Keys
    ensures forall i :: 0 <= i < |files| ==>
      LocalPath(dataDir, SnapshotSegments(ks, table, scope.id) + files[i]) in AddFiles(m, dataDir, scope, ks, table, files)
    decreases |files|
  {
    if files != [] {
      var p := LocalPath(dataDir, SnapshotSegments(ks, table, scope.id) + files[0]);
      AddFilesCovers(m[p := RemoteKey(dataDir, scope, ks, table, files[0])], dataDir, scope, ks, table, files[1..]);
      forall i | 1 <= i < |files|
        ensures LocalPath(dataDir, SnapshotSegments(ks, table, scope.id) + files[i]) in AddFiles(m, dataDir, scope, ks, table, files)
      {
        assert files[i] == files[1..][i - 1];
      }
    }
  }

  lemma TableGrows(m: Manifest, root: Node, dataDir: string, scope: KeyScope, ks: string, table: string)
    requires TableManifest(m, root, dataDir, scope, ks, table).Ok?
    ensures m.Keys <= TableManifest(m, root, dataDir, scope, ks, table).value.Keys
  {
    var segs := SnapshotSegments(ks, table, scope.id);
    if Lookup(root, segs).Found? {
      AddFilesCovers(m, dataDir, scope, ks, table, WalkFiles(Lookup(root, segs).node));
    }
  }

  lemma {:induction false} TablesGrow(m: Manifest, root: Node, dataDir: string, scope: KeyScope, ks: string, tables: seq<string>)
    requires TablesManifest(m, root, dataDir, scope, ks, tables).Ok?
    ensures m.Keys <= TablesManifest(m, root, dataDir, scope, ks, tables).value.Keys
    decreases |tables|
  {
    if tables != [] {
      TableGrows(m, root, dataDir, scope, ks, tables[0]);
      TablesGrow(TableManifest(m, root, dataDir, scope, ks, tables[0]).value, root, dataDir, scope, ks, tables[1..]);
    }
  }

  lemma {:induction false} KeyspacesGrow(m: Manifest, root: Node, dataDir: string, scope: KeyScope, kss: seq<string>)
    requires KeyspacesManifest(m, root, dataDir, scope, kss).Ok?
    ensures m.Keys <= KeyspacesManifest(m, root, dataDir, scope, kss).value.Keys
    decreases |kss|
  {
    if kss != [] {
      TablesGrow(m, root, dataDir, scope, kss[0], SubdirNames(Lookup(root, [kss[0]]).node.entries));
      KeyspacesGrow(KeyspaceManifest(m, root, dataDir, scope, kss[0]).value, root, dataDir, scope, kss[1..]);
    }
  }

  lemma {:induction false} DataDirsGrow(m: Manifest, fs: DataDirs, scope: KeyScope, dataDirs: seq<string>)
    requires DataDirsManifest(m, fs, scope, dataDirs).Ok?
    ensures m.Keys <= DataDirsManifest(m, fs, scope, dataDirs).value.Keys
    decreases |dataDirs|
  {
    if dataDirs != [] {
      var d := dataDirs[0];
      KeyspacesGrow(m, fs[d], d, scope, SubdirNames(fs[d].entries));
      DataDirsGrow(KeyspacesManifest(m, fs[d], d, scope, SubdirNames(fs[d].entries)).value, fs, scope, dataDirs[1..]);
    }
  }

  lemma {:induction false} DataDirsAsWrittenGrow(m: Manifest, kss: seq<string>, fs: DataDirs, scope: KeyScope,
                                                 dataDirs: seq<string>)
    requires DataDirsManifestAsWritten(m, kss, fs, scope, dataDirs).Ok?
    ensures m.Keys <= DataDirsManifestAsWritten(m, kss, fs, scope, dataDirs).value.Keys
    decreases |dataDirs|
  {
    if dataDirs != [] {
      var d := dataDirs[0];
      var kss' := kss + SubdirNames(fs[d].entries);
      KeyspacesGrow(m, fs[d], d, scope, kss');
      DataDirsAsWrittenGrow(KeyspacesManifest(m, fs[d], d, scope, kss').value, kss', fs, scope, dataDirs[1..]);
    }
  }

  lemma TableCovers(m: Manifest, root: Node, dataDir: string, scope: KeyScope, ks: string, table: string, rel: seq<string>)
    requires TableManifest(m, root, dataDir, scope, ks, table).Ok?
    requires FileAt(root, SnapshotSegments(ks, table, scope.id) + rel)
    ensures LocalPath(dataDir, SnapshotSegments(ks, table, scope.id) + rel) in TableManifest(m, root, dataDir, scope, ks, table).value
  {
    var segs := SnapshotSegments(ks, table, scope.id);
    LookupAppend(root, segs, rel);
    var n := Lookup(root, segs).node;
    WalkFilesComplete(n, rel);
    var files := WalkFiles(n);
    var i :| 0 <= i < |files| && files[i] == rel;
    AddFilesCovers(m, dataDir, scope, ks, table, files);
  }

  lemma {:induction false} TablesCover(m: Manifest, root: Node, dataDir: string, scope: KeyScope, ks: string,
                                       tables: seq<string>, table: string, rel: seq<string>)
    requires TablesManifest(m, root, dataDir, scope, ks, tables).Ok?
    requires table in tables && FileAt(root, SnapshotSegments(ks, table, scope.id) + rel)
    ensures LocalPath(dataDir, SnapshotSegments(ks, table, scope.id) + rel) in TablesManifest(m, root, dataDir, scope, ks, tables).value
    decreases |tables|
  {
    var m1 := TableManifest(m, root, dataDir, scope, ks, tables[0]).value;
    if tables[0] == table {
      TableCovers(m, root, dataDir, scope, ks, table, rel);
      TablesGrow(m1, root, dataDir, scope, ks, tables[1..]);
    } else {
      TablesCover(m1, root, dataDir, scope, ks, tables[1..], table, rel);
    }
  }

  lemma KeyspaceCovers(m: Manifest, root: Node, dataDir: string, scope: KeyScope, ks: string, table: string, rel: seq<string>)
    requires KeyspaceManifest(m, root, dataDir, scope, ks).Ok?
    requires ValidSegment(ks) && ValidSegment(table) && ValidSegment(scope.id)
    requires FileAt(root, SnapshotSegments(ks, table, scope.id) + rel)
    ensures LocalPath(dataDir, SnapshotSegments(ks, table, scope.id) + rel) in KeyspaceManifest(m, root, dataDir, scope, ks).value
  {
    var below := [table, "snapshots", scope.id] + rel;
    SnapshotSegmentsOfSegments(ks, table, scope.id);
    assert SnapshotSegments(ks, table, scope.id) + rel == [ks] + below;
    LookupAppend(root, [ks], below);
    var es := Lookup(root, [ks]).node.entries;
    assert below == [table] + below[1..];
    DirectoryChildListed(es, table, below[1..]);
    TablesCover(m, root, dataDir, scope, ks, SubdirNames(es), table, rel);
  }

  lemma {:induction false} KeyspacesCover(m: Manifest, root: Node, dataDir: string, scope: KeyScope, kss: seq<string>,
                                          ks: string, table: string, rel: seq<string>)
    requires KeyspacesManifest(m, root, dataDir, scope, kss).Ok?
    requires ValidSegment(ks) && ValidSegment(table) && ValidSegment(scope.id)
    requires ks in kss && FileAt(root, SnapshotSegments(ks, table, scope.id) + rel)
    ensures LocalPath(dataDir, SnapshotSegments(ks, table, scope.id) + rel) in KeyspacesManifest(m, root, dataDir, scope, kss).value
    decreases |kss|
  {
    var m1 := KeyspaceManifest(m, root, dataDir, scope, kss[0]).value;
    if kss[0] == ks {
      KeyspaceCovers(m, root, dataDir, scope, ks, table, rel);
      KeyspacesGrow(m1, root, dataDir, scope, kss[1..]);
    } else {
      KeyspacesCover(m1, root, dataDir, scope, kss[1..], ks, table, rel);
    }
  }

  lemma {:induction false} DataDirsCover(m: Manifest, fs: DataDirs, scope: KeyScope, dataDirs: seq<string>, p: LocalPath)
    requires DataDirsManifest(m, fs, scope, dataDirs).Ok? && AllWellFormed(fs)
    requires p.dataDir in dataDirs && InSnapshot(fs, scope, p)
    ensures p in DataDirsManifest(m, fs, scope, dataDirs).value
    decreases |dataDirs|
  {
    var d := dataDirs[0];
    var kss := SubdirNames(fs[d].entries);
    var m1 := KeyspacesManifest(m, fs[d], d, scope, kss).value;
    if d == p.dataDir {
      var ks := p.segments[0];
      var rel := p.segments[4..];
      LookupWellFormed(fs[d], p.segments);
      SnapshotSegmentsOfSegments(ks, p.segments[1], scope.id);
      assert p.segments == SnapshotSegments(ks, p.segments[1], scope.id) + rel;
      assert p.segments == [ks] + p.segments[1..];
      DirectoryChildListed(fs[d].entries, ks, p.segments[1..]);
      KeyspacesCover(m, fs[d], d, scope, kss, ks, p.segments[1], rel);
      DataDirsGrow(m1, fs, scope, dataDirs[1..]);
    } else {
      DataDirsCover(m1, fs, scope, dataDirs[1..], p);
    }
  }

  /** The source's scan, too, misses no snapshot file of a data directory it completes: each
      data directory is scanned for at least its own keyspaces. */
  lemma {:induction false} DataDirsAsWrittenCover(m: Manifest, kss: seq<string>, fs: DataDirs, scope: KeyScope,
                                                  dataDirs: seq<string>, p: LocalPath)
    requires DataDirsManifestAsWritten(m, kss, fs, scope, dataDirs).Ok? && AllWellFormed(fs)
    requires p.dataDir in dataDirs && InSnapshot(fs, scope, p)
    ensures p in DataDirsManifestAsWritten(m, kss, fs, scope, dataDirs).value
    decreases |dataDirs|
  {
    var d := dataDirs[0];
    var kss' := kss + SubdirNames(fs[d].entries);
    var m1 := KeyspacesManifest(m, fs[d], d, scope, kss').value;
    if d == p.dataDir {
      var ks := p.segments[0];
      var rel := p.segments[4..];
      LookupWellFormed(fs[d], p.segments);
      SnapshotSegmentsOfSegments(ks, p.segments[1], scope.id);
      assert p.segments == SnapshotSegments(ks, p.segments[1], scope.id) + rel;
      assert p.segments == [ks] + p.segments[1..];
      DirectoryChildListed(fs[d].entries, ks, p.segments[1..]);
      KeyspacesCover(m, fs[d], d, scope, kss', ks, p.segments[1], rel);
      DataDirsAsWrittenGrow(m1, kss', fs, scope, dataDirs[1..]);
    } else {
      DataDirsAsWrittenCover(m1, kss', fs, scope, dataDirs[1..], p);
    }
  }

  /** GetSnapshotFiles, when it succeeds, holds exactly the regular files below the
      `snapshots/<id>` directories of the tables of the configured data directories, each
      mapped to the key built from the snapshot id, the node, the keyspace, the table and the
      file's path below the snapshot directory. A table without such a directory adds nothing;
      directories and files outside snapshot directories are never keys. */
  lemma SnapshotManifestExact(fs: DataDirs, dataDirs: seq<string>, scope: KeyScope, p: LocalPath)
    requires AllWellFormed(fs) && ValidSegment(scope.id)
    requires DataDirsManifest(map[], fs, scope, dataDirs).Ok?
    ensures p in DataDirsManifest(map[], fs, scope, dataDirs).value <==> p.dataDir in dataDirs && InSnapshot(fs, scope, p)
    ensures p in DataDirsManifest(map[], fs, scope, dataDirs).value ==>
      DataDirsManifest(map[], fs, scope, dataDirs).value[p] == RemoteKey(p.dataDir, scope, p.segments[0], p.segments[1], p.segments[4..])
  {
    var dirs := set d | d in dataDirs;
    DataDirsShape(map[], fs, scope, dataDirs, dirs);
    if p.dataDir in dataDirs && InSnapshot(fs, scope, p) {
      DataDirsCover(map[], fs, scope, dataDirs, p);
    }
  }

  /** The same holds of what the source computes whenever it completes, except that it may
      fail where the corrected scan succeeds (see GetSnapshotFilesAsWrittenFails). */
  lemma SnapshotManifestAsWrittenExact(fs: DataDirs, dataDirs: seq<string>, scope: KeyScope, p: LocalPath)
    requires AllWellFormed(fs) && ValidSegment(scope.id)
    requires DataDirsManifestAsWritten(map[], [], fs, scope, dataDirs).Ok?
    ensures p in DataDirsManifestAsWritten(map[], [], fs, scope, dataDirs).value <==> p.dataDir in dataDirs && InSnapshot(fs, scope, p)
    ensures p in DataDirsManifestAsWritten(map[], [], fs, scope, dataDirs).value ==>
      DataDirsManifestAsWritten(map[], [], fs, scope, dataDirs).value[p]
        == RemoteKey(p.dataDir, scope, p.segments[0], p.segments[1], p.segments[4..])
  {
    DataDirsAsWrittenShape(map[], [], fs, scope, dataDirs, set d | d in dataDirs);
    if p.dataDir in dataDirs && InSnapshot(fs, scope, p) {
      DataDirsAsWrittenCover(map[], [], fs, scope, dataDirs, p);
    }
  }

  // ---------------------------------------------------------------- the keys

  /** A key of a file strictly inside a snapshot directory is the segments backups, id, node,
      keyspace, table and the file's path below the snapshot directory, joined by slashes. */
  lemma RemoteKeySegments(dataDir: string, scope: KeyScope, ks: string, table: string, rel: seq<string>)
    requires ValidSegment(scope.id) && ValidSegment(scope.node) && ValidSegment(ks) && ValidSegment(table)
    requires |rel| > 0 && ValidSegments(rel)
    ensures RemoteKey(dataDir, scope, ks, table, rel) == Slashed(["backups", scope.id, scope.node, ks, table] + rel)
  {
    var prefix := ["backups", scope.id, scope.node, ks, table];
    assert ["backups", scope.id, scope.node, ks, table, Slashed(rel)] == prefix + [Slashed(rel)];
    FilepathJoinNested(prefix, rel);
  }

  /** Keys of files strictly inside snapshot directories tell keyspace, table and path apart. */
  lemma RemoteKeyInjective(dataDir1: string, dataDir2: string, scope: KeyScope, ks1: string, table1: string, rel1: seq<string>,
                           ks2: string, table2: string, rel2: seq<string>)
    requires ValidSegment(scope.id) && ValidSegment(scope.node)
    requires ValidSegment(ks1) && ValidSegment(table1) && |rel1| > 0 && ValidSegments(rel1)
    requires ValidSegment(ks2) && ValidSegment(table2) && |rel2| > 0 && ValidSegments(rel2)
    requires RemoteKey(dataDir1, scope, ks1, table1, rel1) == RemoteKey(dataDir2, scope, ks2, table2, rel2)
    ensures ks1 == ks2 && table1 == table2 && rel1 == rel2
  {
    var k1 := ["backups", scope.id, scope.node, ks1, table1] + rel1;
    var k2 := ["backups", scope.id, scope.node, ks2, table2] + rel2;
    assert JoinWith(k1, "/") == JoinWith(k2, "/") by {
      RemoteKeySegments(dataDir1, scope, ks1, table1, rel1);
      RemoteKeySegments(dataDir2, scope, ks2, table2, rel2);
    }
    assert forall i :: 0 <= i < |k1| ==> '/' !in k1[i] by {
      forall i | 5 <= i < |k1| ensures '/' !in k1[i] { assert k1[i] == rel1[i - 5]; }
    }
    assert forall i :: 0 <= i < |k2| ==> '/' !in k2[i] by {
      forall i | 5 <= i < |k2| ensures '/' !in k2[i] { assert k2[i] == rel2[i - 5]; }
    }
    JoinInjective(k1, k2, '/');
    assert rel1 == k1[5..] && rel2 == k2[5..];
  }

  /** A snapshot file's path is its keyspace, its table, the snapshot directory and the rest. */
  lemma SnapshotPathSegments(fs: DataDirs, scope: KeyScope, p: LocalPath)
    requires InSnapshot(fs, scope, p)
    ensures p.segments == [p.segments[0], p.segments[1], "snapshots", scope.id] + p.segments[4..]
  {
    assert p.segments == p.segments[..4] + p.segments[4..];
    assert p.segments[..4] == [p.segments[0], p.segments[1], "snapshots", scope.id];
  }

  /** Within one data directory, two files strictly inside snapshot directories with the same
      key are the same file. */
  lemma SameKeySamePath(m: Manifest, fs: DataDirs, scope: KeyScope, dirs: set<string>, p1: LocalPath, p2: LocalPath)
    requires ManifestShape(m, fs, scope, dirs) && AllWellFormed(fs)
    requires ValidSegment(scope.id) && ValidSegment(scope.node)
    requires p1 in m && p2 in m && p1.dataDir == p2.dataDir
    requires |p1.segments| > 4 && |p2.segments| > 4
    requires m[p1] == m[p2]
    ensures p1 == p2
  {
    var s1, s2 := p1.segments, p2.segments;
    assert InSnapshot(fs, scope, p1) && InSnapshot(fs, scope, p2);
    assert ValidSegments(s1) && ValidSegments(s2) by {
      LookupWellFormed(fs[p1.dataDir], s1);
      LookupWellFormed(fs[p2.dataDir], s2);
    }
    assert ValidSegments(s1[4..]) && ValidSegments(s2[4..]) by {
      forall i | 0 <= i < |s1[4..]| ensures ValidSegment(s1[4..][i]) { assert s1[4..][i] == s1[i + 4]; }
      forall i | 0 <= i < |s2[4..]| ensures ValidSegment(s2[4..][i]) { assert s2[4..][i] == s2[i + 4]; }
    }
    assert s1[0] == s2[0] && s1[1] == s2[1] && s1[4..] == s2[4..] by {
      RemoteKeyInjective(p1.dataDir, p2.dataDir, scope, s1[0], s1[1], s1[4..], s2[0], s2[1], s2[4..]);
    }
    SnapshotPathSegments(fs, scope, p1);
    SnapshotPathSegments(fs, scope, p2);
  }

  /** Within one data directory, distinct files strictly inside snapshot directories get
      distinct keys. */
  lemma RemoteKeysDistinct(m: Manifest, fs: DataDirs, scope: KeyScope, dirs: set<string>, p1: LocalPath, p2: LocalPath)
    requires ManifestShape(m, fs, scope, dirs) && AllWellFormed(fs)
    requires ValidSegment(scope.id) && ValidSegment(scope.node)
    requires p1 in m && p2 in m && p1.dataDir == p2.dataDir && p1 != p2
    requires |p1.segments| > 4 && |p2.segments| > 4
    ensures m[p1] != m[p2]
  {
    if m[p1] == m[p2] {
      SameKeySamePath(m, fs, scope, dirs, p1, p2);
      assert false;
    }
  }

  /** Across data directories the same keyspace, table and path give the same key: two local
      files then share one remote object. */
  lemma RemoteKeyShared(m: Manifest, fs: DataDirs, scope: KeyScope, dirs: set<string>, p1: LocalPath, p2: LocalPath)
    requires ManifestShape(m, fs, scope, dirs)
    requires p1 in m && p2 in m && p1.segments == p2.segments && |p1.segments| > 4
    ensures m[p1] == m[p2]
  {
  }

  // ---------------------------------------------------------------- the accumulating keyspace list

  /** Two data directories: the first holds keyspace `ks`, the second is empty. */
  function TwoDataDirs(): DataDirs {
    map["/d0" := Dir([Entry("ks", Dir([]))]), "/d1" := Dir([])]
  }

  /** The corrected scan succeeds on them with an empty manifest, but the source's scan looks
      for `ks` in the second data directory too and fails. */
  lemma GetSnapshotFilesAsWrittenFails()
    ensures DataDirsManifest(map[], TwoDataDirs(), KeyScope("s1", "10.0.0.1"), ["/d0", "/d1"]) == Ok(map[])
    ensures DataDirsManifestAsWritten(map[], [], TwoDataDirs(), KeyScope("s1", "10.0.0.1"), ["/d0", "/d1"]).Err?
  {
    var fs := TwoDataDirs();
    var scope := KeyScope("s1", "10.0.0.1");
    var root0 := Dir([Entry("ks", Dir([]))]);
    var root1 := Dir([]);
    assert fs["/d0"] == root0 && fs["/d1"] == root1;
    assert SubdirNames(root0.entries) == ["ks"] by {
      assert [Entry("ks", Dir([]))][..0] == [];
    }
    assert SubdirNames(root1.entries) == [];
    assert KeyspacesManifest(map[], root0, "/d0", scope, ["ks"]) == Ok(map[]) by {
      assert Lookup(root0, ["ks"]) == Found(Dir([]));
      assert KeyspaceManifest(map[], root0, "/d0", scope, "ks") == Ok(map[]);
    }
    assert KeyspacesManifest(map[], root1, "/d1", scope, ["ks"]).Err? by {
      assert Lookup(root1, ["ks"]) == Absent;
    }
    assert KeyspacesManifest(map[], root1, "/d1", scope, []) == Ok(map[]);
    assert ["/d0", "/d1"][1..] == ["/d1"] && ["/d1"][1..] == [];
    assert ["ks"] + [] == ["ks"];
  }

  // ---------------------------------------------------------------- a snapshot id that is not one segment

  /** One data directory holding one snapshot `s1` of table `t` of keyspace `ks`. */
  function OneSnapshot(): DataDirs {
    map["/d" := Dir([Entry("ks", Dir([Entry("t", Dir([Entry("snapshots", Dir([Entry("s1", Dir([Entry("f", File(1))]))]))]))]))])]
  }

  /** The snapshot id is joined into the path as filepath.Join does: with an empty id the scan
      walks the table's whole `snapshots` directory, and the key holds the snapshot's own name. */
  lemma EmptySnapshotIdWalksSnapshots()
    ensures DataDirsManifest(map[], OneSnapshot(), KeyScope("", "n"), ["/d"])
         == Ok(map[LocalPath("/d", ["ks", "t", "snapshots", "s1", "f"]) := RemoteKey("/d", KeyScope("", "n"), "ks", "t", ["s1", "f"])])
  {
    var scope := KeyScope("", "n");
    var snaps := Dir([Entry("s1", Dir([Entry("f", File(1))]))]);
    var tdir := Dir([Entry("snapshots", snaps)]);
    var ksdir := Dir([Entry("t", tdir)]);
    var root := Dir([Entry("ks", ksdir)]);
    assert OneSnapshot()["/d"] == root;
    assert SubdirNames(root.entries) == ["ks"] by {
      assert root.entries[..0] == [];
    }
    assert SubdirNames(ksdir.entries) == ["t"] by {
      assert ksdir.entries[..0] == [];
    }
    assert SnapshotSegments("ks", "t", "") == ["ks", "t", "snapshots"] by {
      assert SplitOn("", '/') == [""];
      assert ["ks", "t", "snapshots"] + SplitOn("", '/') == ["ks", "t", "snapshots"] + [""];
      CleanSegmentsKeepsValid([], ["ks", "t", "snapshots"], [""], false);
      assert [] + ["ks", "t", "snapshots"] == ["ks", "t", "snapshots"];
    }
    assert Lookup(root, ["ks", "t", "snapshots"]) == Found(snaps);
    var leaf := Dir([Entry("f", File(1))]);
    assert WalkFiles(leaf) == [["f"]] by {
      var sub := WalkFiles(File(1));
      assert sub == [[]];
      var head := seq(|sub|, i requires 0 <= i < |sub| => ["f"] + sub[i]);
      assert head[0] == ["f"] + [] == ["f"];
      assert head == [["f"]];
      assert WalkEntries([Entry("f", File(1))][1..]) == [];
    }
    assert WalkFiles(snaps) == [["s1", "f"]] by {
      var sub := WalkFiles(leaf);
      var head := seq(|sub|, i requires 0 <= i < |sub| => ["s1"] + sub[i]);
      assert head[0] == ["s1"] + ["f"] == ["s1", "f"];
      assert head == [["s1", "f"]];
      assert WalkEntries([Entry("s1", leaf)][1..]) == [];
    }
    assert ["ks", "t", "snapshots"] + ["s1", "f"] == ["ks", "t", "snapshots", "s1", "f"];
    assert Lookup(root, ["ks"]) == Found(ksdir);
    assert ["ks"][1..] == [] && ["t"][1..] == [] && ["/d"][1..] == [];
  }

  /** The key of that snapshot's file: the empty id vanishes from it, leaving
      `backups/n/ks/t/s1/f`. */
  lemma EmptySnapshotIdKey()
    ensures RemoteKey("/d", KeyScope("", "n"), "ks", "t", ["s1", "f"]) == Slashed(["backups", "n", "ks", "t", "s1", "f"])
  {
    var ds, rel := ["backups"], ["n", "ks", "t", "s1", "f"];
    var parts := ds + [""] + rel;
    assert JoinWith(parts, "/") == JoinWith(["backups", "", "n", "ks", "t", Slashed(["s1", "f"])], "/") by {
      var pre := ["backups", "", "n", "ks", "t"];
      assert parts == pre + ["s1", "f"];
      assert ["backups", "", "n", "ks", "t", Slashed(["s1", "f"])] == pre + [Slashed(["s1", "f"])];
      JoinWithAppend(pre, ["s1", "f"], "/");
      JoinWithAppend(pre, [Slashed(["s1", "f"])], "/");
    }
    CleanSegmentsDropsEmpty(ds, rel);
    PiecesAvoidSlash(ds, rel);
    CleanOfPieces(parts, ds + rel);
    assert ds + rel == ["backups", "n", "ks", "t", "s1", "f"];
  }
}
