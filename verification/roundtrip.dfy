/** How a backup and a restore of the same snapshot fit together: the object keys Backup
    uploads under are found again by the listings DownloadSnapshot makes, and each object is
    downloaded to the same path below the destination table's directory that the file had
    below the source table's snapshot directory. */
module RoundTrip {
  import opened Results
  import opened Strings
  import opened Paths
  import opened Cassandra
  import opened SnapshotManifest
  import opened Aws
  import opened Snappy

  /** The key of a snapshot file, written out below the snapshot folder of its node. */
  lemma KeyBelowSnapshotFolder(id: string, node: string, ks: string, table: string, rel: seq<string>)
    requires ValidSegment(id) && ValidSegment(node) && ValidSegment(ks) && ValidSegment(table)
    requires |rel| > 0 && ValidSegments(rel)
    ensures Slashed(["backups", id, node, ks, table] + rel)
         == SnapshotFolder(id, node) + (ks + "/" + (table + "/" + Slashed(rel)))
  {
    var base := ["backups", id, node];
    SnapshotFolderSegments(id, node);
    assert ["backups", id, node, ks, table] + rel == base + ([ks, table] + rel);
    JoinWithAppend(base, [ks, table] + rel, "/");
    assert ([ks, table] + rel)[1..] == [table] + rel;
    JoinWithAppend([table], rel, "/");
  }

  /** filepath.Join of a folder written with a trailing slash and further valid segments. */
  lemma JoinBelowFolder(folder: string, base: seq<string>, rest: seq<string>)
    requires |base| > 0 && ValidSegments(base) && folder == Slashed(base) + "/"
    requires |rest| > 0 && ValidSegments(rest)
    ensures FilepathJoin([folder] + rest) == folder + Slashed(rest)
  {
    FilepathJoinBelow(base, rest);
  }

  /** filepath.Join of the snapshot folder, written with its trailing slash, and further
      valid segments. */
  lemma JoinBelowSnapshotFolder(id: string, node: string, rest: seq<string>)
    requires ValidSegment(id) && ValidSegment(node)
    requires |rest| > 0 && ValidSegments(rest)
    ensures FilepathJoin([SnapshotFolder(id, node)] + rest) == SnapshotFolder(id, node) + Slashed(rest)
  {
    var base := ["backups", id, node];
    var folder := SnapshotFolder(id, node);
    assert folder == Slashed(base) + "/" && |base| > 0 && ValidSegments(base) by {
      SnapshotFolderSegments(id, node);
    }
    JoinBelowFolder(folder, base, rest);
  }

  /** The table listing of a keyspace asks for the level below `<folder><keyspace>/`. */
  lemma TablesRequestPrefix(id: string, node: string, ks: string)
    requires ValidSegment(id) && ValidSegment(node) && ValidSegment(ks)
    ensures TablesRequest(SnapshotFolder(id, node), ks).prefix == SnapshotFolder(id, node) + ks + "/"
  {
    var folder := SnapshotFolder(id, node);
    assert [folder, ks] == [folder] + [ks];
    JoinBelowSnapshotFolder(id, node, [ks]);
  }

  /** The file listing of the table folder `name-uuid` asks for keys starting with
      `<folder><keyspace>/<name>-<uuid>`. */
  lemma SnapshotFilesRequestPrefix(id: string, node: string, ks: string, table: string)
    requires ValidSegment(id) && ValidSegment(node) && ValidSegment(ks) && ValidSegment(table)
    requires Contains(table, "-")
    ensures SnapshotFilesRequest(SnapshotFolder(id, node), ks, TableEntry(table, "").name, TableEntry(table, "").srcUUID).prefix
         == SnapshotFolder(id, node) + ks + "/" + table
  {
    var folder := SnapshotFolder(id, node);
    var entry := TableEntry(table, "");
    assert entry.name + "-" + entry.srcUUID == table by {
      TableFolderRoundTrip(table);
    }
    assert [folder, ks, entry.name + "-" + entry.srcUUID] == [folder] + [ks, table];
    SlashedPair(ks, table);
    assert ValidSegments([ks, table]);
    JoinBelowSnapshotFolder(id, node, [ks, table]);
  }

  /** The table listing of a restore, under `<folder><keyspace>/`, sees the table directory
      of every backed-up file of the keyspace as the next path level. */
  lemma TableListingReachesKey(id: string, node: string, ks: string, table: string, rel: seq<string>)
    requires ValidSegment(id) && ValidSegment(node) && ValidSegment(ks) && ValidSegment(table)
    requires |rel| > 0 && ValidSegments(rel)
    ensures Slashed(["backups", id, node, ks, table] + rel)
         == TablesRequest(SnapshotFolder(id, node), ks).prefix + (table + "/" + Slashed(rel))
  {
    var folder := SnapshotFolder(id, node);
    var tail := table + "/" + Slashed(rel);
    assert Slashed(["backups", id, node, ks, table] + rel) == folder + (ks + "/" + tail) by {
      KeyBelowSnapshotFolder(id, node, ks, table, rel);
    }
    assert TablesRequest(folder, ks).prefix == folder + ks + "/" by {
      TablesRequestPrefix(id, node, ks);
    }
  }

  /** The file listing of a restore for the table folder `name-uuid` has the key of every
      backed-up file of that table directory under its prefix. */
  lemma FileListingReachesKey(id: string, node: string, ks: string, table: string, rel: seq<string>)
    requires ValidSegment(id) && ValidSegment(node) && ValidSegment(ks) && ValidSegment(table)
    requires |rel| > 0 && ValidSegments(rel)
    requires Contains(table, "-")
    ensures HasPrefix(Slashed(["backups", id, node, ks, table] + rel),
                      SnapshotFilesRequest(SnapshotFolder(id, node), ks, TableEntry(table, "").name, TableEntry(table, "").srcUUID).prefix)
  {
    var folder := SnapshotFolder(id, node);
    var key := Slashed(["backups", id, node, ks, table] + rel);
    var prefix := folder + ks + "/" + table;
    assert key == prefix + ("/" + Slashed(rel)) by {
      KeyBelowSnapshotFolder(id, node, ks, table, rel);
    }
    assert SnapshotFilesRequest(folder, ks, TableEntry(table, "").name, TableEntry(table, "").srcUUID).prefix == prefix by {
      SnapshotFilesRequestPrefix(id, node, ks, table);
    }
    assert key[..|prefix|] == prefix;
  }

  /** DownloadFiles puts the object of a backed-up file, listed under the snapshot folder of
      its node, at the file's path below the snapshot directory, now taken below the
      destination directory. */
  lemma {:induction false} DownloadPlacesKey(id: string, node: string, ks: string, table: string, rel: seq<string>,
                                             ds: seq<string>)
    requires ValidSegment(id) && ValidSegment(node) && ValidSegment(ks) && ValidSegment(table)
    requires |rel| > 0 && ValidSegments(rel)
    requires |ds| > 0 && ValidSegments(ds)
    ensures LocalFileFor(SnapshotFolder(id, node), Slashed(["backups", id, node, ks, table] + rel), "/" + Slashed(ds))
         == Ok("/" + Slashed(ds + rel))
  {
    var folder := SnapshotFolder(id, node);
    var key := Slashed(["backups", id, node, ks, table] + rel);
    var below := [ks, table] + rel;
    KeyBelowSnapshotFolder(id, node, ks, table, rel);
    assert Slashed(below) == ks + "/" + (table + "/" + Slashed(rel)) by {
      assert below[1..] == [table] + rel;
      JoinWithAppend([table], rel, "/");
    }
    assert HasPrefix(key, folder) by {
      assert key[..|folder|] == folder;
    }
    assert TrimPrefix(key, folder) == Slashed(below);
    assert SplitOn(Slashed(below), '/') == below by {
      assert forall i :: 0 <= i < |below| ==> '/' !in below[i] by {
        forall i | 0 <= i < |below| ensures '/' !in below[i] {
          if i >= 2 { assert below[i] == rel[i - 2]; }
        }
      }
      SplitJoinRoundTrip(below, '/');
    }
    assert below[2..] == rel;
    FilepathJoinUnder(ds, rel);
  }

  /** Backup and restore of a snapshot, end to end: a file of the manifest Backup uploads from
      the snapshot directory of a table is downloaded, by the restore of that snapshot into the
      directory `ds` of the table on the destination node, to its own path below `ds`. */
  lemma BackupRestoresInPlace(fs: DataDirs, dataDirs: seq<string>, scope: KeyScope, p: LocalPath, ds: seq<string>)
    requires AllWellFormed(fs)
    requires DataDirsManifest(map[], fs, scope, dataDirs).Ok?
    requires p in DataDirsManifest(map[], fs, scope, dataDirs).value
    requires ValidSegment(scope.id) && ValidSegment(scope.node)
    requires |p.segments| > 4
    requires |ds| > 0 && ValidSegments(ds)
    ensures LocalFileFor(SnapshotFolder(scope.id, scope.node), DataDirsManifest(map[], fs, scope, dataDirs).value[p], "/" + Slashed(ds))
         == Ok("/" + Slashed(ds + p.segments[4..]))
  {
    SnapshotManifestExact(fs, dataDirs, scope, p);
    LookupWellFormed(fs[p.dataDir], p.segments);
    var ks, table, rel := p.segments[0], p.segments[1], p.segments[4..];
    assert ValidSegments(rel) by {
      forall i | 0 <= i < |rel| ensures ValidSegment(rel[i]) {
        assert rel[i] == p.segments[i + 4];
      }
    }
    RemoteKeySegments(p.dataDir, scope, ks, table, rel);
    DownloadPlacesKey(scope.id, scope.node, ks, table, rel, ds);
  }
}
