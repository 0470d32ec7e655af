# snappy — a Dafny model of its backup and restore core

snappy backs up the snapshots of a Cassandra node to an object store (S3) and restores them
onto a cluster of the same shape. A backup has four steps:

- It takes a snapshot with `nodetool snapshot -t <id>`.
- It walks the `snapshots/<id>` directory of every table of every configured data directory.
- It maps each file to the key `backups/<id>/<node>/<keyspace>/<table>/<path>`. Here `<table>` is the table's directory name as listed, `<name>-<uuid>`; the restore's `ListSnapshotFiles` looks objects up under that name.
- It uploads the files one by one, optionally throttled.

A restore has three steps:

- `RestorePrepare` pairs every source node with a destination node and records its token range.
- `RestoreApply` appends `initial_token` and `auto_bootstrap: false` to the configuration of a destination node.
- `DownloadSnapshot` finds the source node of a destination and lists the keyspaces and tables it backed up. It looks up the local id and directory of each table, then downloads every object into that directory. An object whose local copy already has the remote size is skipped.

The model is split into these modules:

| module | file | what it holds |
|---|---|---|
| `Results` | `results.dfy` | `Option`, `Result` and `Outcome` (pass or fail with a message). |
| `Strings` | `strings.dfy` | `Split` of `pkg/snappy/strings.go`, and Go's `strings` functions as the core uses them. |
| `Paths` | `paths.dfy` | Go's `filepath.Join`, `Clean` and `Dir` with Unix rules, on plain strings. |
| `Cloud` | `cloud.dfy` | The bandwidth units, the marker name, and Go's 64-bit `int`. |
| `Cassandra` | `cassandra.dfy` | The configuration lookups and the outcome of `nodetool snapshot`. Also the local file tree of each data directory and the manifest scan. |
| `SnapshotManifest` | `manifest.dfy` | What the manifest holds, and which keys it can share. |
| `Aws` | `aws.dfy` | The `S3` store as a class over a map from key to size: uploads, the completion marker, the three listings and `DownloadFiles`. It also holds the `LocalDisk` that downloads write to. |
| `Snappy` | `snappy.dfy` | `Backup`, `RestorePrepare`, `RestoreApply` on a `ConfigFile` class, and `DownloadSnapshot`. |
| `RoundTrip` | `roundtrip.dfy` | A key built by the backup is found by the restore listings and downloaded back to the same relative path. |

How the model is built:

- **Loops are methods.** Every loop of the source becomes a method with a loop. Each such method is proved equal to a specification function: `GetSnapshotFiles` to `DataDirsManifest`, `DownloadFiles` to `FetchAll`, `BuildIndex` to `SnapshotIndex`, and so on. The properties the source promises are then proved as lemmas about those functions.
- **Fatal errors are results.** A `log.Fatal` becomes an error result. A panic on a failed type assertion or an out-of-range slice becomes one too.
- **Things outside the core are parameters.** These are the parsed configuration, the local address, the outcome of `nodetool`, the token ranges and the local schema lookups. The same holds for the pages an S3 listing returns, the files that fail to upload and the order Go's map iteration picks.

## Model

| member | source | states |
|---|---|---|
| Strings.IndexFromFirst | pkg/snappy/strings.go:11 | The index `strings.SplitN` cuts at is an occurrence of the separator, and no earlier position holds one. No index means the separator does not occur. |
| Strings.SplitCuts | pkg/snappy/strings.go:5-19 | An empty input gives `("", "")`. An input without the separator gives `(s, "")`. Otherwise the two parts and the separator between them rebuild the input, the first part holds no occurrence of the separator, and the cut is at the first occurrence. |
| Strings.SplitOfJoined | pkg/snappy/strings.go:11-18 | `Split(a + sep + b, sep) == (a, b)` whenever no occurrence of `sep` starts inside `a`. `b` may contain further separators. |
| Strings.SplitAtChar | pkg/snappy/strings.go:11-18 | With a one-character separator absent from `a`, `Split` gives `a` and the whole rest back. |
| Strings.SplitTableFolderExample | pkg/snappy/snappy.go:186 | `Split("t1-ab-cd", "-") == ("t1", "ab-cd")`: only the first dash splits. |
| Strings.TrimPrefix | pkg/snappy/aws.go:95 | With the prefix present, prefix plus result is the input. Otherwise the input is unchanged. |
| Strings.TrimSuffix | pkg/snappy/aws.go:193 | With the suffix present, result plus suffix is the input. Otherwise the input is unchanged. |
| Strings.SplitOn | pkg/snappy/aws.go:96 | `strings.Split` yields at least one piece, and no piece contains the separator. |
| Strings.JoinWithAppend | pkg/snappy/aws.go:97 | Joining a concatenation puts exactly one separator between the joined halves. |
| Strings.SplitJoinRoundTrip | pkg/snappy/aws.go:96-97 | Splitting joined pieces gives the pieces back, when no piece holds the separator. |
| Strings.JoinSplitRoundTrip | pkg/snappy/aws.go:96-97 | Joining the pieces of a split gives the input back. |
| Strings.JoinInjective | pkg/snappy/cassandra.go:158 | Distinct piece lists without the separator join to distinct strings. |
| Strings.NatToDecimal | pkg/snappy/cassandra.go:86 | `%d` of a natural number is a non-empty string of decimal digits. |
| Strings.DecimalRoundTrip | pkg/snappy/cassandra.go:86 | Reading back the printed digits gives the number: an exit status is reported exactly. |
| Paths.UpToLastSlash | pkg/snappy/aws.go:98 | The cut `filepath.Dir` makes ends at a slash, and no slash follows it. |
| Paths.FilepathJoinValid | pkg/snappy/cassandra.go:158 | `filepath.Join` of valid segments is those segments with single slashes between them. |
| Paths.FilepathJoinNested | pkg/snappy/cassandra.go:158 | Joining segments with a relative path of valid segments is the same as joining all the segments. |
| Paths.FilepathJoinUnder | pkg/snappy/aws.go:110 | Joining an absolute directory and a relative path gives the absolute path of all the segments. |
| Paths.DirOfRooted | pkg/snappy/aws.go:98 | `filepath.Dir` of an absolute path drops exactly its last segment. |
| Paths.FilepathJoinLeading | pkg/snappy/aws.go:164 | Joining a relative path of valid segments with more valid segments gives all the segments, slash-separated. |
| Paths.FilepathJoinBelow | pkg/snappy/aws.go:214 | Joining a directory written with a trailing slash keeps that slash once, then the further segments. |
| Cloud.BandwidthUnits | pkg/snappy/cloud.go:33-46 | `Kbps` is 128 bytes/s, `Mbps` 131072 and `Gbps` 134217728, each 1024 times the one before. `Unlimited` is 2^63-1, above `Gbps`. |
| Cloud.WrapInt64 | pkg/snappy/snappy.go:43 | The result is a 64-bit value congruent to the exact value modulo 2^64. It is the exact value whenever that fits. |
| Cassandra.GetDataDirectories | pkg/snappy/cassandra.go:96-104 | No setting gives no directories. A list of strings gives those strings, in configuration order. Anything else is the failed type assertion. |
| Cassandra.GetListenAddress | pkg/snappy/cassandra.go:170-181 | A configured `listen_address` takes precedence over the local address. The local address, or its error, is used only when the setting is absent. |
| Cassandra.CreateSnapshot | pkg/snappy/cassandra.go:70-93 | Success exactly when there is no error. A failed start reports its error. Exit status 2 reports the snapshot as existing, any other status reports `Exit Status: n`, and a failed wait reports `cmd.Wait: ...`. |
| Cassandra.ExitReportsDistinct | pkg/snappy/cassandra.go:83-86 | The "already exists" report differs from every exit-status report. An exit-status report carries its status exactly. |
| Cassandra.SubdirNamesAreDirectories | pkg/snappy/cassandra.go:124-128 | A name is kept from a listing exactly when an entry of that name is a directory. Plain files are never kept. |
| Cassandra.ListSubdirs | pkg/snappy/cassandra.go:139-143 | The loop keeps the directory entries of a listing, in listing order. |
| Cassandra.SnapshotSegmentsOfSegments | pkg/snappy/cassandra.go:147 | The snapshot directory is the joined path as `filepath.Join` cleans it. For a keyspace, a table and an id that are one path segment each, that is exactly `<keyspace>/<table>/snapshots/<id>`. |
| Cassandra.ScanTable | pkg/snappy/cassandra.go:145-161 | The snapshot directory is looked up as `filepath.Join` cleans it. A table without it adds nothing and is not an error. A regular file in its way is an error. Otherwise every walked file is mapped to its key. |
| Cassandra.ScanKeyspace | pkg/snappy/cassandra.go:130-143 | Reads a keyspace directory and scans its table directories in order. It stops at the first error. |
| Cassandra.ScanKeyspaces | pkg/snappy/cassandra.go:130-162 | Scans the given keyspaces of one data directory in order. It stops at the first error. |
| Cassandra.GetSnapshotFiles | pkg/snappy/cassandra.go:106-167 | The corrected manifest scan: each data directory is scanned for its own keyspaces only. What the result holds is stated by SnapshotManifest.SnapshotManifestExact. |
| Cassandra.GetSnapshotFilesAsWritten | pkg/snappy/cassandra.go:106-167 | The manifest scan as the source writes it, with the keyspace list accumulating across data directories. |
| SnapshotManifest.DirectoryChildListed | pkg/snappy/cassandra.go:124-132 | A keyspace with anything below it is one of the listed directory children. |
| SnapshotManifest.WalkFilesAreFiles | pkg/snappy/cassandra.go:152-160 | Every path Walk reports to the callback is a regular file, never a directory. |
| SnapshotManifest.WalkFilesComplete | pkg/snappy/cassandra.go:152-160 | Every regular file below the walked root is reported. |
| SnapshotManifest.SubdirNamesValid | pkg/snappy/cassandra.go:139-143 | The directory names kept from a real listing are single valid path segments. |
| SnapshotManifest.DataDirsShape | pkg/snappy/cassandra.go:118-164 | Each key of the scan is a regular file below a `snapshots/<id>` directory of a configured data directory. It is mapped to the key of its keyspace, table and path. |
| SnapshotManifest.DataDirsAsWrittenShape | pkg/snappy/cassandra.go:118-164 | The same holds of the scan as the source writes it. |
| SnapshotManifest.TableCovers | pkg/snappy/cassandra.go:145-161 | Every regular file below a table's snapshot directory ends up in the manifest. |
| SnapshotManifest.DataDirsCover | pkg/snappy/cassandra.go:118-164 | Every such file of every configured data directory ends up in the manifest. |
| SnapshotManifest.DataDirsAsWrittenCover | pkg/snappy/cassandra.go:109-164 | The same holds of the scan as the source writes it whenever it completes: each data directory is scanned for at least its own keyspaces. |
| SnapshotManifest.SnapshotManifestExact | pkg/snappy/cassandra.go:106-167 | For a snapshot id that is one path segment: a local file is in the manifest if and only if it is a regular file below `snapshots/<id>` of a table of a configured data directory. Its value is `backups/<id>/<node>/<keyspace>/<table>/<path below the snapshot directory>`. |
| SnapshotManifest.SnapshotManifestAsWrittenExact | pkg/snappy/cassandra.go:106-167 | For a snapshot id that is one path segment, whenever the source's scan completes: a local file is in its manifest if and only if it is such a file, and its value is the same key. |
| SnapshotManifest.RemoteKeySegments | pkg/snappy/cassandra.go:157-158 | A key is the segments `backups`, id, node, keyspace, table and the file's relative path, joined by slashes. |
| SnapshotManifest.RemoteKeyInjective | pkg/snappy/cassandra.go:158 | Equal keys mean equal keyspace, table and relative path. |
| SnapshotManifest.SameKeySamePath | pkg/snappy/cassandra.go:158 | Within one data directory, two manifest files with the same key are the same file. |
| SnapshotManifest.RemoteKeysDistinct | pkg/snappy/cassandra.go:158 | Within one data directory, distinct files get distinct keys. |
| SnapshotManifest.RemoteKeyShared | pkg/snappy/cassandra.go:158 | Across data directories, the same keyspace, table and path give the same key to two local files. |
| SnapshotManifest.EmptySnapshotIdWalksSnapshots | pkg/snappy/cassandra.go:147-158 | With an empty snapshot id the joined path drops the id: the scan walks the table's whole `snapshots` directory, and the file `s1/f` in it is in the manifest. |
| SnapshotManifest.EmptySnapshotIdKey | pkg/snappy/cassandra.go:157-158 | That file's key is `backups/n/ks/t/s1/f`: the empty id vanishes from the key too. |
| SnapshotManifest.GetSnapshotFilesAsWrittenFails | pkg/snappy/cassandra.go:109-135 | Counterexample: a second, empty data directory makes the source's scan fail where the corrected scan returns an empty manifest. |
| Aws.ReadRate | pkg/snappy/aws.go:62-69 | A zero throttle reads without a limiter. Any other throttle gets a limiter. |
| Aws.ReadRateBytes | pkg/snappy/aws.go:66 | A throttle of T Mbit/s reads T * 131072 bytes/s. The default of 200 gives 26214400. |
| Aws.MarkerKeysAgree | pkg/snappy/aws.go:153-176 | `IsSnapshotComplete(join(prefix, id))` probes exactly the key `MarkSnapshotComplete(prefix, id)` writes, which is `prefix/id/SNAPSHOT_COMPLETED`. |
| Aws.PrefixNameOf | pkg/snappy/aws.go:193 | A common prefix one level below the page prefix is trimmed to the name of that level. |
| Aws.NonSystemAppend | pkg/snappy/aws.go:190-199 | Filtering page after page is the same as filtering all names at once. |
| Aws.NonSystemMembers | pkg/snappy/aws.go:195-197 | A name is kept if and only if it is listed and does not start with `system`. |
| Aws.NonSystemKeepsOthers | pkg/snappy/aws.go:195 | Names that are not system keyspaces all pass, in their order. |
| Aws.ListKeyspaces | pkg/snappy/aws.go:179-206 | The trimmed common prefixes of all pages, in page order, with the system keyspaces left out. A listing error is fatal. |
| Aws.PageKeyspaces | pkg/snappy/aws.go:192-198 | The trimmed, filtered names of one page, in page order. |
| Aws.ListTables | pkg/snappy/aws.go:209-232 | The trimmed common prefixes under `path/keyspace/`, all of them, in page order. A listing error is fatal. |
| Aws.ListSnapshotFiles | pkg/snappy/aws.go:234-260 | Every object key under `path/keyspace/table-uuid`, in page order. A listing error is fatal. |
| Aws.LocalFileFor | pkg/snappy/aws.go:95-110 | Deriving a local path fails exactly when the key, less the snapshot folder, has no slash. In that case the slice `[2:]` is out of range. |
| Aws.FetchStep | pkg/snappy/aws.go:95-145 | One key only adds directories and files, and touches no file but its own local file. It passes exactly when that file then holds the whole object. A file that already holds the whole object is skipped with nothing changed. |
| Aws.FetchAllFrame | pkg/snappy/aws.go:94-148 | A download run never removes a directory or a file. It leaves every file that is not the local file of one of its keys unchanged. |
| Aws.FetchAllDelivers | pkg/snappy/aws.go:94-148 | When a run completes and no two keys share a local file, every local file holds its whole object. |
| Aws.FetchAllSkipsDelivered | pkg/snappy/aws.go:112-126 | Keys whose local files already have the remote size are all skipped. Nothing is created, truncated or downloaded. |
| Aws.DownloadAgainSkipsAll | pkg/snappy/aws.go:90-151 | Running a completed download again changes nothing. |
| Aws.S3.constructor | pkg/snappy/aws.go:44-50 | The store keeps its bucket, its throttle and the objects it starts with. |
| Aws.S3.UploadFile | pkg/snappy/aws.go:54-88 | A missing local file is an error and stores nothing. A failed upload is wrapped as `error uploading <file>` and stores nothing. Otherwise the file's size is stored under the key and nothing else changes. An opened file is read at the rate `ReadRate(throttle)`. |
| Aws.S3.MarkSnapshotComplete | pkg/snappy/aws.go:163-176 | Returns true exactly when the upload succeeds; the empty marker object is then stored and nothing else changes. After a successful mark, `IsSnapshotComplete` holds for the snapshot. |
| Aws.S3.DownloadFiles | pkg/snappy/aws.go:92-151 | The outcome and the new disk are those of `FetchAll`, whose properties are the `FetchAll*` lemmas. |
| Aws.S3.DownloadKey | pkg/snappy/aws.go:95-145 | The outcome and the new disk for one key are those of `FetchStep`. |
| Snappy.FirstMissing | pkg/snappy/snappy.go:38-44 | Finds the first file `os.Stat` fails on, with every earlier file present. None means every file can be stat'ed. |
| Snappy.WrapAdd | pkg/snappy/snappy.go:43 | Adding sizes one by one in 64-bit arithmetic wraps the exact total. |
| Snappy.UploadAll | pkg/snappy/snappy.go:66-78 | The upload loop ends as `UploadLoop` says. The bucket then holds exactly the files uploaded before the loop stopped. |
| Snappy.BackupWith | pkg/snappy/snappy.go:22-82 | A failed manifest and a file that cannot be stat'ed each stop the backup before any upload. `totalSize` is the 64-bit total of the file sizes. An unknown provider with files to upload is a nil store. Otherwise the uploads run as `UploadLoop` says. |
| Snappy.BackupAsWritten | pkg/snappy/snappy.go:66-76 | The upload loop as the source writes it: a file that vanishes after its upload ends the run with the nil outer error. |
| Snappy.Backup | pkg/snappy/snappy.go:22-82 | The upload loop with the stat error returned. |
| Snappy.UploadSuccessMeansAll | pkg/snappy/snappy.go:66-81 | When the corrected backup reports success, every file was uploaded, and none failed or vanished. |
| Snappy.UploadStopsAtFirstError | pkg/snappy/snappy.go:66-76 | A failing run stops at some file. Every file before it was uploaded, nothing after it was, and the error is that file's. |
| Snappy.BackupAsWrittenLosesFiles | pkg/snappy/snappy.go:73-76 | Counterexample: the source's loop reports success after uploading one of two files. The corrected loop reports the stat error. |
| Snappy.UploadedHolds | pkg/snappy/snappy.go:66-78 | Every uploaded file's key is in the bucket. Each key holds its own file's size when no two files share a key. |
| Snappy.RestorePrepare | pkg/snappy/snappy.go:85-110 | Lists of different lengths fail before any token lookup. Otherwise the i-th mapping pairs the i-th source with the i-th destination and the source's tokens, in input order. The run fails with the first token lookup error. |
| Snappy.FirstByDestination | pkg/snappy/snappy.go:123-128 | Finds the first mapping with the given destination. None means no mapping has it. |
| Snappy.FindNode | pkg/snappy/snappy.go:159-165 | The loop finds a node exactly when some mapping has the destination, and the node it finds is the first such mapping. |
| Snappy.ApplyPlan | pkg/snappy/snappy.go:119-147 | An existing `initial_token` is refused first. A destination absent from the mapping is not found. Tokens are written only when the configuration opens and the first matching mapping has a token range. |
| Snappy.RestoreApply | pkg/snappy/snappy.go:113-148 | On any error the configuration is unchanged. Otherwise its text gains exactly `initial_token: <tokens joined by ", ">\n` then `auto_bootstrap: false\n`. When the old text ended with a newline, the settings then hold `initial_token`, with whatever value that line parses to, and `auto_bootstrap: false`, with every other setting kept. |
| Snappy.ApplyOnlyOnce | pkg/snappy/snappy.go:119-121 | Settings that hold `initial_token`, with any value, are refused on a second application. |
| Snappy.TokenLinesAreTwoLines | pkg/snappy/snappy.go:137-144 | The appended text is exactly two lines: the joined tokens and `auto_bootstrap: false`. |
| Snappy.KeptTablesFails | pkg/snappy/snappy.go:185-201 | Indexing a keyspace fails if and only if tables may not be skipped and some listed table is missing locally. |
| Snappy.KeptTablesStrict | pkg/snappy/snappy.go:185-201 | In strict mode, a successful index keeps every listed table, in listing order, with its local id. |
| Snappy.KeptTablesLenient | pkg/snappy/snappy.go:185-201 | In skip mode indexing always succeeds. Its result is `LocatedTables`: the listed folders whose table exists locally, in listing order, each with its local id. |
| Snappy.LocatedTablesSnoc | pkg/snappy/snappy.go:185-201 | One more listed folder adds its entry at the end exactly when its table exists locally. |
| Snappy.LocatedTablesMembers | pkg/snappy/snappy.go:185-201 | A table is kept if and only if its folder is listed and its table exists locally, with its local id. |
| Snappy.TableFolderRoundTrip | pkg/snappy/snappy.go:186 | A folder `name-uuid` splits into a dash-free name and an id that rebuild the folder name. |
| Snappy.KeptTablesErrPersists | pkg/snappy/snappy.go:189-190 | Once a table is fatal, the whole keyspace fails with that error. |
| Snappy.SnapshotIndexErrPersists | pkg/snappy/snappy.go:180-204 | Once a keyspace fails, the whole index fails with that error. |
| Snappy.SnapshotIndexCoversKeyspaces | pkg/snappy/snappy.go:180-204 | A successful index has one entry per listed keyspace, in listing order, even for a keyspace without tables. |
| Snappy.IndexTable | pkg/snappy/snappy.go:186-200 | One listed folder is handled as `KeepTable` says. |
| Snappy.IndexKeyspace | pkg/snappy/snappy.go:181-203 | The table loop of one keyspace computes its entry as `KeyspaceIndex` says. |
| Snappy.BuildIndex | pkg/snappy/snappy.go:179-204 | The keyspace loop computes the index as `SnapshotIndex` says. |
| Snappy.SnapshotFolderText | pkg/snappy/snappy.go:176 | The snapshot folder is `backups/<id>/<srcNode>/`. |
| Snappy.DownloadPlan | pkg/snappy/snappy.go:159-204 | A destination absent from the mapping is fatal. Otherwise the folder is that of the first mapping's source node. |
| Snappy.RestoreTableFiles | pkg/snappy/snappy.go:208-216 | One table: list its objects, find its local directory, download. The outcome and disk are those of `RestoreTable`. |
| Snappy.RestoreKeyspace | pkg/snappy/snappy.go:208-216 | The tables of one keyspace in index order, stopping at the first fatal error. |
| Snappy.DownloadSnapshot | pkg/snappy/snappy.go:151-219 | A missing node, a listing error or a missing table stops the run before anything is written locally. Otherwise every table of the index is downloaded in order, as `RestoreIndex` says. |
| RoundTrip.KeyBelowSnapshotFolder | pkg/snappy/cassandra.go:158 | A backup key is the restore's snapshot folder followed by `keyspace/table/path`. |
| RoundTrip.TablesRequestPrefix | pkg/snappy/aws.go:214 | The table listing asks for the level below `<folder><keyspace>/`. |
| RoundTrip.SnapshotFilesRequestPrefix | pkg/snappy/aws.go:236-238 | The file listing for folder `name-uuid` asks for keys starting with `<folder><keyspace>/name-uuid`. |
| RoundTrip.TableListingReachesKey | pkg/snappy/aws.go:212-224 | Every backed-up key of a keyspace lies below the table listing's prefix, with the table directory as its next level. |
| RoundTrip.FileListingReachesKey | pkg/snappy/aws.go:242-253 | Every backed-up key of a table directory lies under the file listing's prefix. |
| RoundTrip.DownloadPlacesKey | pkg/snappy/aws.go:95-110 | A backed-up key is downloaded into `<directory>/<path below the snapshot directory>`. |
| RoundTrip.BackupRestoresInPlace | pkg/snappy/cassandra.go:152-158 | End to end: a manifest file is restored to its own path below the destination table's directory. |

## Left out

- `pkg/snappy/gcp.go` is not part of this model. Its marker keys and throttle choice repeat those of `aws.go`. Backup treats both known providers as the same key-to-size store.
- `pkg/snappy/s3.go` is not part of this model. It is an older duplicate of the `S3` type and of the units.
- The `CloudSnapshot` interface is not modelled as an abstract type. Backup uses the `S3` class directly.
- `NewS3` and its `HeadBucket` probe are not modelled. A store is constructed from its bucket, throttle and objects, and a failed `NewS3` in `DownloadSnapshot` is not modelled.
- Network, YAML and process I/O are parameters rather than modelled code:
  - `pkg/snappy/network.go`: the local address is a parameter.
  - `pkg/snappy/yaml.go`: the parsed configuration is a map parameter.
  - `find`, `nodeTool`, `cassandraYaml` and `exec.Command`: the outcome of `nodetool` is a `ToolRun` parameter.
- `CreateSnapshotID` is left out: it reads the wall clock.
- `GetTokenRange`, `FindTableUUID`, `FindTablePath` and `GetConfigFilename` are not part of this model. They are parameters returning a result.
- The rate limiter itself is left out, being timing behaviour of a foreign library:
  - `iocontrol.ThrottledReader`, with its 5-second burst;
  - the five-minute context timeout of each upload;
  - the 128 MB part size.
  Only the rate it is given is modelled.
- Aws.S3.DownloadFiles: the downloads run sequentially, one key after another. The source starts one goroutine per key while its main loop goes on creating the directories of later keys. For runs that complete, the two agree when no two keys share a local file, as FetchAllDelivers assumes. The disk after a fatal error is not captured: in the source, a `log.Fatal` in one goroutine, or the `[2:]` panic of a later key, ends the process with other downloads partly written and later keys' directories possibly created, where `FetchAll` stops after a clean prefix of the keys.
- Aws.FetchStep: `os.MkdirAll` is modelled as adding only the missing parent directory, not its ancestors. A failing `HeadObject` request counts as a size mismatch. A failing `GetObject` counts as a missing key.
- Directory sizes, permissions and symbolic links are left out. A file has a size; a directory has entries.
- OS and SDK error texts are approximated by short strings built from the path or key involved, e.g. `open <path>: not a directory`.
- The progress bar, `humanize`, logging and the JSON marshalling of the mapping are left out, as output formatting.
- Snappy.RestoreApply: a failed `WriteString` after the file opened is not modelled. No YAML parser is modelled. When the old text ends with a newline, the parsed settings after the append are the old settings with `auto_bootstrap` set to false and `initial_token` set to the `parsedToken` parameter. That value depends on the tokens: a string for two or more, a number for a single numeric token, null for an empty list. When it ends mid-line, the first appended line continues the last one, and the parsed settings are the `parsedMidLine` parameter.
- Snappy.ApplyOnlyOnce: a second application is refused only when the first one appended to a text that ended with a newline. After a text that ends mid-line, in a comment say, the appended `initial_token` may not be parsed, and a second RestoreApply then gets past the `initial_token` guard at snappy.go:119.
- Cassandra.GetSnapshotFiles: the configured data directories are assumed to name distinct directories. The manifest is keyed by data directory and segments, where the source keys it by the joined path string. Two spellings of one directory, such as `/d` and `/d/`, give one entry in the source but two in the model, and Backup then counts and uploads that file twice.
- Cassandra.SnapshotSegments: the snapshot id is cleaned below the table directory. An id whose `..` segments climb above the data directory leads out of the modelled tree, where the lookup finds nothing; the source would look at the real directory there.
- SnapshotManifest.SnapshotManifestExact: proved only for a snapshot id that is one path segment. Any other id (empty, `.`, `..`, or holding a slash) selects another directory, and the manifest's files then lack the `<keyspace>/<table>/snapshots/<id>` form the lemma states. EmptySnapshotIdWalksSnapshots shows one such id.
- SnapshotManifest.SnapshotManifestAsWrittenExact: proved only for a snapshot id that is one path segment, as SnapshotManifestExact.
- SnapshotManifest.DataDirsShape: proved only for a snapshot id that is one path segment, as SnapshotManifestExact.
- SnapshotManifest.DataDirsAsWrittenShape: proved only for a snapshot id that is one path segment, as SnapshotManifestExact.
- Snappy.BackupWith: the error of `CreateSnapshot` only logs a warning in `Backup`, so it is not an input. The manifest is an input, as a result.
- Snappy.BackupWith: Go's map iteration order is the `order` parameter, any enumeration of the manifest.
- Cassandra.TableDir: the source passes the joined path to `fmt.Sprintf` as its format string (cassandra.go:147). A `%` in a path would be read as a verb; the model uses the path unchanged.
- `MarkSnapshotComplete` and `IsSnapshotComplete` are modelled, but the code of this repository never calls them.
- Mismatched call sites. `snappy.go:26` calls `CreateSnapshot` with two arguments, while `cassandra.go:70` declares it with one. `snappy.go:33` calls `GetSnapshotFiles` with four arguments and an error result, while `cassandra.go:106` declares it with one argument. The model follows the `cassandra.go` declarations, and Backup takes the manifest as an input.
- `cmd/*.go` and `main.go`, the command-line wiring, are not part of this model.

## Findings

| source | as written | input that shows it | evidently intended | confidence | as-written member | corrected member |
|---|---|---|---|---|---|---|
| pkg/snappy/cassandra.go:109-135 | `keyspaces` is declared outside the data-directory loop and only appended to, so each data directory is read for the keyspaces of every earlier one | data directories `/d0` holding keyspace `ks` and an empty `/d1`: reading `/d1/ks` fails and the scan aborts | each data directory is scanned for its own keyspaces | high (not executed) | SnapshotManifest.GetSnapshotFilesAsWrittenFails | SnapshotManifest.SnapshotManifestExact |
| pkg/snappy/snappy.go:73-76 | a failed `os.Stat` after an upload returns `err`, the outer variable, which is nil there | manifest order `[p, q]`, with `p` removed after its upload: the run reports success and `q` is never uploaded | return the stat error `e` | high (not executed) | Snappy.BackupAsWrittenLosesFiles | Snappy.UploadSuccessMeansAll |
