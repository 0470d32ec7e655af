/** The S3 store of pkg/snappy/aws.go: uploads, the completion marker, the three listings and
    the download of a table's files to the local disk. The bucket is a map from object key to
    object size; the pages a ListObjectsV2 request yields are given by a `Lister`. */
module Aws {
  import opened Results
  import opened Strings
  import opened Paths
  import opened Cloud

  // ---------------------------------------------------------------- throttling

  /** The rate UploadFile's reader is limited to: none for a zero throttle, otherwise the
      throttle in megabits per second as bytes per second, in Go's 64-bit `int`. */
  function ReadRate(throttle: int): (r: Option<int>)
    ensures r.None? <==> throttle == 0
  {
    if throttle == 0 then None else Some(WrapInt64(throttle * Mbps))
  }

  /** A throttle of T megabits per second reads T * 131072 bytes per second, for every T whose
      product fits in 64 bits; the command-line default of 200 gives 26214400. */
  lemma ReadRateBytes(throttle: int)
    requires 0 < throttle < 0x4000_0000_0000
    ensures ReadRate(throttle) == Some(throttle * 131072)
    ensures ReadRate(throttle).value >= 131072
    ensures ReadRate(200) == Some(26214400)
  {
  }

  // ---------------------------------------------------------------- object keys

  /** The key IsSnapshotComplete probes for a snapshot path. */
  function CompletionProbe(path: string): string {
    FilepathJoin([path, SnapshotCompleted])
  }

  /** The key MarkSnapshotComplete writes for a prefix and a snapshot id. */
  function CompletionMarker(prefix: string, snapshotID: string): string {
    FilepathJoin([prefix, snapshotID, SnapshotCompleted])
  }

  /** A relative path of valid segments, as filepath.Join writes it. */
  predicate RelativePath(s: string) {
    s != "" && ValidSegments(SplitOn(s, '/'))
  }

  /** Probing the snapshot path `prefix/id` looks at the very key that marking the snapshot
      `id` under `prefix` writes. */
  lemma MarkerKeysAgree(prefix: string, snapshotID: string)
    requires RelativePath(prefix) && ValidSegment(snapshotID)
    ensures CompletionProbe(FilepathJoin([prefix, snapshotID])) == CompletionMarker(prefix, snapshotID)
    ensures CompletionMarker(prefix, snapshotID) == prefix + "/" + snapshotID + "/" + SnapshotCompleted
  {
    var ps := SplitOn(prefix, '/');
    assert Slashed(ps) == prefix && |ps| > 0 && ValidSegments(ps) by {
      JoinSplitRoundTrip(prefix, '/');
    }
    var mid := ps + [snapshotID];
    var all := mid + [SnapshotCompleted];
    assert ValidSegments(mid) && ValidSegments(all) by {
      ValidConcat(ps, [snapshotID]);
      ValidConcat(mid, [SnapshotCompleted]);
    }
    assert FilepathJoin([prefix, snapshotID]) == Slashed(mid) by {
      FilepathJoinLeading(ps, [snapshotID]);
      assert [prefix, snapshotID] == [Slashed(ps)] + [snapshotID];
    }
    assert CompletionProbe(Slashed(mid)) == Slashed(all) by {
      FilepathJoinLeading(mid, [SnapshotCompleted]);
      assert [Slashed(mid), SnapshotCompleted] == [Slashed(mid)] + [SnapshotCompleted];
    }
    assert CompletionMarker(prefix, snapshotID) == Slashed(all) by {
      FilepathJoinLeading(ps, [snapshotID, SnapshotCompleted]);
      assert [prefix, snapshotID, SnapshotCompleted] == [Slashed(ps)] + [snapshotID, SnapshotCompleted];
      assert ps + [snapshotID, SnapshotCompleted] == all;
    }
    assert Slashed(all) == prefix + "/" + snapshotID + "/" + SnapshotCompleted by {
      JoinWithAppend(mid, [SnapshotCompleted], "/");
      JoinWithAppend(ps, [snapshotID], "/");
      assert JoinWith([snapshotID], "/") == snapshotID;
      assert JoinWith([SnapshotCompleted], "/") == SnapshotCompleted;
    }
  }

  // ---------------------------------------------------------------- listings

  /** A ListObjectsV2 request: a key prefix and an optional delimiter. */
  datatype ListRequest = ListRequest(prefix: string, delimiter: Option<string>)

  /** One page of a listing: the prefix it echoes, the common prefixes and the object keys. */
  datatype Page = Page(prefix: string, commonPrefixes: seq<string>, contents: seq<string>)

  /** The pages a paginator yields, and the error it stopped with, if any. */
  datatype Listing = Listing(pages: seq<Page>, err: Option<string>)

  type Lister = ListRequest -> Listing

  function KeyspacesRequest(path: string): ListRequest {
    ListRequest(path, Some("/"))
  }

  function TablesRequest(path: string, keyspace: string): ListRequest {
    ListRequest(FilepathJoin([path, keyspace]) + "/", Some("/"))
  }

  /** The folder of a table is its name and its id joined by a dash. */
  function SnapshotFilesRequest(path: string, keyspace: string, table: string, uuid: string): ListRequest {
    ListRequest(FilepathJoin([path, keyspace, table + "-" + uuid]), None)
  }

  /** The name a common prefix stands for: the page prefix and the trailing slash removed. */
  function PrefixName(pagePrefix: string, common: string): string {
    TrimSuffix(TrimPrefix(common, pagePrefix), "/")
  }

  /** A common prefix one level below the page prefix gives back the name of that level. */
  lemma PrefixNameOf(pagePrefix: string, name: string)
    ensures PrefixName(pagePrefix, pagePrefix + name + "/") == name
  {
    var common := pagePrefix + name + "/";
    assert HasPrefix(common, pagePrefix) by {
      assert common[..|pagePrefix|] == pagePrefix;
    }
    assert TrimPrefix(common, pagePrefix) == name + "/";
    assert HasSuffix(name + "/", "/");
  }

  /** The names of the common prefixes of one page, in page order. */
  function PageNames(pagePrefix: string, commons: seq<string>): seq<string> {
    if commons == [] then []
    else PageNames(pagePrefix, commons[..|commons| - 1]) + [PrefixName(pagePrefix, commons[|commons| - 1])]
  }

  /** The names of the common prefixes of all pages, in page order. */
  function ListedNames(pages: seq<Page>): seq<string> {
    if pages == [] then []
    else
      var last := pages[|pages| - 1];
      ListedNames(pages[..|pages| - 1]) + PageNames(last.prefix, last.commonPrefixes)
  }

  /** The object keys of all pages, in page order. */
  function ListedKeys(pages: seq<Page>): seq<string> {
    if pages == [] then []
    else ListedKeys(pages[..|pages| - 1]) + pages[|pages| - 1].contents
  }

  predicate IsSystem(name: string) {
    HasPrefix(name, "system")
  }

  /** The names that are not system keyspaces, in their order. */
  function NonSystem(names: seq<string>): seq<string> {
    if names == [] then []
    else
      var last := names[|names| - 1];
      NonSystem(names[..|names| - 1]) + (if IsSystem(last) then [] else [last])
  }

  lemma {:induction false} NonSystemAppend(a: seq<string>, b: seq<string>)
    ensures NonSystem(a + b) == NonSystem(a) + NonSystem(b)
    decreases |b|
  {
    if b == [] {
      assert a + b == a;
    } else {
      assert (a + b)[..|a + b| - 1] == a + b[..|b| - 1];
      NonSystemAppend(a, b[..|b| - 1]);
    }
  }

  /** A name survives the filter exactly when it is listed and is not a system keyspace. */
  lemma {:induction false} NonSystemMembers(names: seq<string>, x: string)
    ensures x in NonSystem(names) <==> x in names && !IsSystem(x)
  {
    if names != [] {
      var init := names[..|names| - 1];
      NonSystemMembers(init, x);
      assert names == init + [names[|names| - 1]];
    }
  }

  /** The filter keeps the order of the names it keeps, and drops nothing else. */
  lemma {:induction false} NonSystemKeepsOthers(names: seq<string>)
    requires forall i :: 0 <= i < |names| ==> !IsSystem(names[i])
    ensures NonSystem(names) == names
  {
    if names != [] {
      NonSystemKeepsOthers(names[..|names| - 1]);
      assert names == names[..|names| - 1] + [names[|names| - 1]];
    }
  }

  function ListError(e: string): string {
    "failed to list objects, " + e
  }

  /** ListKeyspaces: the names below `path`, with the page prefix and the trailing slash removed,
      in listing order, leaving out every name that starts with "system"; a listing that stops
      with an error is fatal. */
  method ListKeyspaces(list: Lister, path: string) returns (r: Result<seq<string>>)
    ensures list(KeyspacesRequest(path)).err.Some? ==> r == Err(ListError(list(KeyspacesRequest(path)).err.value))
    ensures list(KeyspacesRequest(path)).err.None? ==> r == Ok(NonSystem(ListedNames(list(KeyspacesRequest(path)).pages)))
  {
    var listing := list(KeyspacesRequest(path));
    var pages := listing.pages;
    var keyspaces: seq<string> := [];
    for i := 0 to |pages|
      invariant keyspaces == NonSystem(ListedNames(pages[..i]))
    {
      var names := PageKeyspaces(pages[i]);
      NonSystemListedStep(pages, i);
      keyspaces := keyspaces + names;
    }
    assert pages[..|pages|] == pages;
    if listing.err.Some? {
      return Err(ListError(listing.err.value));
    }
    return Ok(keyspaces);
  }

  /** The loop of ListKeyspaces over the common prefixes of one page. */
  method PageKeyspaces(page: Page) returns (keyspaces: seq<string>)
    ensures keyspaces == NonSystem(PageNames(page.prefix, page.commonPrefixes))
  {
    var commons := page.commonPrefixes;
    keyspaces := [];
    for j := 0 to |commons|
      invariant keyspaces == NonSystem(PageNames(page.prefix, commons[..j]))
    {
      var keyspace := PrefixName(page.prefix, commons[j]);
      NonSystemPageStep(page.prefix, commons, j);
      if !IsSystem(keyspace) {
        keyspaces := keyspaces + [keyspace];
      }
    }
    assert commons[..|commons|] == commons;
  }

  /** One more common prefix of a page, through the filter. */
  lemma NonSystemPageStep(prefix: string, commons: seq<string>, j: nat)
    requires j < |commons|
    ensures var name := PrefixName(prefix, commons[j]);
      NonSystem(PageNames(prefix, commons[..j + 1])) ==
        NonSystem(PageNames(prefix, commons[..j])) + (if IsSystem(name) then [] else [name])
  {
    var name := PrefixName(prefix, commons[j]);
    var names := PageNames(prefix, commons[..j]);
    assert commons[..j + 1][..j] == commons[..j];
    assert PageNames(prefix, commons[..j + 1]) == names + [name];
    assert (names + [name])[..|names|] == names;
  }

  /** One more page of a listing, through the filter. */
  lemma NonSystemListedStep(pages: seq<Page>, i: nat)
    requires i < |pages|
    ensures NonSystem(ListedNames(pages[..i + 1])) ==
      NonSystem(ListedNames(pages[..i])) + NonSystem(PageNames(pages[i].prefix, pages[i].commonPrefixes))
  {
    assert pages[..i + 1][..i] == pages[..i];
    NonSystemAppend(ListedNames(pages[..i]), PageNames(pages[i].prefix, pages[i].commonPrefixes));
  }

  /** ListTables: the names below `path/keyspace/`, trimmed as for keyspaces, all of them, in
      listing order. */
  method ListTables(list: Lister, path: string, keyspace: string) returns (r: Result<seq<string>>)
    ensures list(TablesRequest(path, keyspace)).err.Some? ==> r == Err(ListError(list(TablesRequest(path, keyspace)).err.value))
    ensures list(TablesRequest(path, keyspace)).err.None? ==> r == Ok(ListedNames(list(TablesRequest(path, keyspace)).pages))
  {
    var listing := list(TablesRequest(path, keyspace));
    var pages := listing.pages;
    var tables: seq<string> := [];
    for i := 0 to |pages|
      invariant tables == ListedNames(pages[..i])
    {
      var page := pages[i];
      var commons := page.commonPrefixes;
      ghost var before := tables;
      for j := 0 to |commons|
        invariant tables == before + PageNames(page.prefix, commons[..j])
      {
        assert commons[..j + 1][..j] == commons[..j];
        tables := tables + [PrefixName(page.prefix, commons[j])];
      }
      assert commons[..|commons|] == commons;
      assert pages[..i + 1][..i] == pages[..i];
    }
    assert pages[..|pages|] == pages;
    if listing.err.Some? {
      return Err(ListError(listing.err.value));
    }
    return Ok(tables);
  }

  /** ListSnapshotFiles: every object key under `path/keyspace/table-uuid`, in listing order. */
  method ListSnapshotFiles(list: Lister, path: string, keyspace: string, table: string, uuid: string)
    returns (r: Result<seq<string>>)
    ensures list(SnapshotFilesRequest(path, keyspace, table, uuid)).err.Some? ==>
      r == Err(ListError(list(SnapshotFilesRequest(path, keyspace, table, uuid)).err.value))
    ensures list(SnapshotFilesRequest(path, keyspace, table, uuid)).err.None? ==>
      r == Ok(ListedKeys(list(SnapshotFilesRequest(path, keyspace, table, uuid)).pages))
  {
    var listing := list(SnapshotFilesRequest(path, keyspace, table, uuid));
    var pages := listing.pages;
    var files: seq<string> := [];
    for i := 0 to |pages|
      invariant files == ListedKeys(pages[..i])
    {
      var contents := pages[i].contents;
      ghost var before := files;
      for j := 0 to |contents|
        invariant files == before + contents[..j]
      {
        files := files + [contents[j]];
      }
      assert contents[..|contents|] == contents;
      assert pages[..i + 1][..i] == pages[..i];
    }
    assert pages[..|pages|] == pages;
    if listing.err.Some? {
      return Err(ListError(listing.err.value));
    }
    return Ok(files);
  }

  // ---------------------------------------------------------------- the local disk

  /** The local files (path to size) and directories DownloadFiles works on. */
  datatype Disk = Disk(files: map<string, nat>, dirs: set<string>)

  class LocalDisk {
    var files: map<string, nat>
    var dirs: set<string>

    constructor (files: map<string, nat>, dirs: set<string>)
      ensures this.files == files && this.dirs == dirs
    {
      this.files := files;
      this.dirs := dirs;
    }

    function State(): Disk
      reads this
    {
      Disk(files, dirs)
    }
  }

  /** os.Stat succeeds on the path. */
  predicate Exists(d: Disk, path: string) {
    path in d.files || path in d.dirs
  }

  /** Strings without the character split into that one piece; strings with it into two or
      more. */
  lemma SplitOnCount(s: string, c: char)
    ensures |SplitOn(s, c)| >= 2 <==> c in s
  {
    if c !in s {
      SplitOnNoSeparator(s, c);
    } else if |SplitOn(s, c)| == 1 {
      JoinSplitRoundTrip(s, c);
    }
  }

  /** The error UploadFile returns for a local file that does not exist. */
  function OpenMissing(filename: string): string {
    "open " + filename + NoSuchFile
  }

  /** The error UploadFile returns when the upload of `filename` fails with `e`. */
  function UploadFailure(filename: string, e: string): string {
    "error uploading " + filename + ": " + e
  }

  /** The panic text of a slice expression out of range. */
  const SliceOutOfRange: string := "runtime error: slice bounds out of range"

  /** The local file of a key: the key without the snapshot folder, less its keyspace and table
      segments, under `directory`. A key with fewer than two segments left makes the source's
      slice expression panic. */
  function LocalFileFor(snapshotPath: string, key: string, directory: string): (r: Result<string>)
    ensures r.Err? <==> '/' !in TrimPrefix(key, snapshotPath)
  {
    var splitPath := SplitOn(TrimPrefix(key, snapshotPath), '/');
    SplitOnCount(TrimPrefix(key, snapshotPath), '/');
    if |splitPath| < 2 then Err(SliceOutOfRange)
    else Ok(FilepathJoin([directory, JoinWith(splitPath[2..], "/")]))
  }

  /** The local file already holds the whole object: it exists, the object exists, and the
      sizes agree. */
  predicate Delivered(d: Disk, objects: map<string, nat>, snapshotPath: string, directory: string, key: string) {
    && LocalFileFor(snapshotPath, key, directory).Ok?
    && var local := LocalFileFor(snapshotPath, key, directory).value;
    && local in d.files && key in objects && d.files[local] == objects[key]
    && Exists(d, Dir(local))
  }

  /** One key of DownloadFiles: create the local file's directory when it cannot be stat'ed;
      skip the key when the local file already has the object's size; otherwise create or
      truncate the local file and download the object into it. A local file that cannot be
      created, and an object that cannot be fetched, are fatal. */
  function FetchStep(d: Disk, objects: map<string, nat>, snapshotPath: string, directory: string, key: string): (r: (Outcome, Disk))
    ensures d.dirs <= r.1.dirs && d.files.Keys <= r.1.files.Keys
    ensures forall x :: x in d.files && LocalFileFor(snapshotPath, key, directory) != Ok(x) ==> r.1.files[x] == d.files[x]
    ensures LocalFileFor(snapshotPath, key, directory).Ok? ==>
      r.1.files.Keys <= d.files.Keys + {LocalFileFor(snapshotPath, key, directory).value}
    ensures LocalFileFor(snapshotPath, key, directory).Err? ==> r == (Fail(LocalFileFor(snapshotPath, key, directory).msg), d)
    ensures r.0.Pass? <==> Delivered(r.1, objects, snapshotPath, directory, key)
    ensures Delivered(d, objects, snapshotPath, directory, key) ==> r == (Pass, d)
  {
    match LocalFileFor(snapshotPath, key, directory)
    case Err(e) => (Fail(e), d)
    case Ok(local) =>
      var parent := Dir(local);
      var d1 := if Exists(d, parent) then d else d.(dirs := d.dirs + {parent});
      if local in d1.files && key in objects && objects[key] == d1.files[local] then (Pass, d1)
      else if local in d1.dirs then (Fail("open " + local + ": is a directory"), d1)
      else if parent !in d1.dirs then (Fail("open " + local + ": not a directory"), d1)
      else if key !in objects then (Fail("NoSuchKey: " + key), d1.(files := d1.files[local := 0]))
      else (Pass, d1.(files := d1.files[local := objects[key]]))
  }

  /** DownloadFiles over a list of keys, stopping at the first fatal error. */
  function FetchAll(d: Disk, objects: map<string, nat>, snapshotPath: string, directory: string, keys: seq<string>): (Outcome, Disk)
    decreases |keys|
  {
    if keys == [] then (Pass, d)
    else
      var step := FetchStep(d, objects, snapshotPath, directory, keys[0]);
      if step.0.Fail? then step
      else FetchAll(step.1, objects, snapshotPath, directory, keys[1..])
  }

  /** DownloadFiles only adds directories and files, and changes no file that is not the
      local file of one of its keys. */
  lemma {:induction false} FetchAllFrame(d: Disk, objects: map<string, nat>, snapshotPath: string, directory: string,
                                         keys: seq<string>, x: string)
    ensures d.dirs <= FetchAll(d, objects, snapshotPath, directory, keys).1.dirs
    ensures d.files.Keys <= FetchAll(d, objects, snapshotPath, directory, keys).1.files.Keys
    ensures x in d.files && (forall i :: 0 <= i < |keys| ==> LocalFileFor(snapshotPath, keys[i], directory) != Ok(x)) ==>
      FetchAll(d, objects, snapshotPath, directory, keys).1.files[x] == d.files[x]
    decreases |keys|
  {
    if keys != [] {
      var step := FetchStep(d, objects, snapshotPath, directory, keys[0]);
      if step.0.Pass? {
        FetchAllFrame(step.1, objects, snapshotPath, directory, keys[1..], x);
        if x in d.files && (forall i :: 0 <= i < |keys| ==> LocalFileFor(snapshotPath, keys[i], directory) != Ok(x)) {
          assert LocalFileFor(snapshotPath, keys[0], directory) != Ok(x);
          forall i | 0 <= i < |keys[1..]|
            ensures LocalFileFor(snapshotPath, keys[1..][i], directory) != Ok(x)
          {
            assert keys[1..][i] == keys[i + 1];
          }
        }
      }
    }
  }

  /** Being delivered lasts while other local files are written. */
  lemma DeliveredLasts(d: Disk, objects: map<string, nat>, snapshotPath: string, directory: string,
                       keys: seq<string>, key: string)
    requires Delivered(d, objects, snapshotPath, directory, key)
    requires forall i :: 0 <= i < |keys| ==> LocalFileFor(snapshotPath, keys[i], directory) != LocalFileFor(snapshotPath, key, directory)
    ensures Delivered(FetchAll(d, objects, snapshotPath, directory, keys).1, objects, snapshotPath, directory, key)
  {
    var local := LocalFileFor(snapshotPath, key, directory).value;
    FetchAllFrame(d, objects, snapshotPath, directory, keys, local);
    FetchAllFrame(d, objects, snapshotPath, directory, keys, Dir(local));
  }

  /** When DownloadFiles completes and no two keys share a local file, every local file holds
      its whole object. */
  lemma {:induction false} FetchAllDelivers(d: Disk, objects: map<string, nat>, snapshotPath: string, directory: string,
                                            keys: seq<string>)
    requires FetchAll(d, objects, snapshotPath, directory, keys).0.Pass?
    requires forall i, j :: 0 <= i < j < |keys| ==>
      LocalFileFor(snapshotPath, keys[i], directory) != LocalFileFor(snapshotPath, keys[j], directory)
    ensures forall i :: 0 <= i < |keys| ==>
      Delivered(FetchAll(d, objects, snapshotPath, directory, keys).1, objects, snapshotPath, directory, keys[i])
    decreases |keys|
  {
    if keys != [] {
      var step := FetchStep(d, objects, snapshotPath, directory, keys[0]);
      var rest := keys[1..];
      var done := FetchAll(d, objects, snapshotPath, directory, keys).1;
      assert done == FetchAll(step.1, objects, snapshotPath, directory, rest).1;
      FetchAllDelivers(step.1, objects, snapshotPath, directory, rest);
      forall i | 0 <= i < |rest|
        ensures LocalFileFor(snapshotPath, rest[i], directory) != LocalFileFor(snapshotPath, keys[0], directory)
      {
        assert rest[i] == keys[i + 1];
      }
      DeliveredLasts(step.1, objects, snapshotPath, directory, rest, keys[0]);
      forall i | 1 <= i < |keys|
        ensures Delivered(done, objects, snapshotPath, directory, keys[i])
      {
        assert keys[i] == rest[i - 1];
      }
    }
  }

  /** Keys whose local files already hold their objects are all skipped: nothing is created,
      truncated or downloaded. */
  lemma {:induction false} FetchAllSkipsDelivered(d: Disk, objects: map<string, nat>, snapshotPath: string, directory: string,
                                                  keys: seq<string>)
    requires forall i :: 0 <= i < |keys| ==> Delivered(d, objects, snapshotPath, directory, keys[i])
    ensures FetchAll(d, objects, snapshotPath, directory, keys) == (Pass, d)
    decreases |keys|
  {
    if keys != [] {
      assert Delivered(d, objects, snapshotPath, directory, keys[0]);
      forall i | 0 <= i < |keys[1..]|
        ensures Delivered(d, objects, snapshotPath, directory, keys[1..][i])
      {
        assert keys[1..][i] == keys[i + 1];
      }
      FetchAllSkipsDelivered(d, objects, snapshotPath, directory, keys[1..]);
    }
  }

  /** Running a completed download again downloads nothing. */
  lemma DownloadAgainSkipsAll(d: Disk, objects: map<string, nat>, snapshotPath: string, directory: string, keys: seq<string>)
    requires FetchAll(d, objects, snapshotPath, directory, keys).0.Pass?
    requires forall i, j :: 0 <= i < j < |keys| ==>
      LocalFileFor(snapshotPath, keys[i], directory) != LocalFileFor(snapshotPath, keys[j], directory)
    ensures var done := FetchAll(d, objects, snapshotPath, directory, keys).1;
      FetchAll(done, objects, snapshotPath, directory, keys) == (Pass, done)
  {
    FetchAllDelivers(d, objects, snapshotPath, directory, keys);
    FetchAllSkipsDelivered(FetchAll(d, objects, snapshotPath, directory, keys).1, objects, snapshotPath, directory, keys);
  }

  // ---------------------------------------------------------------- the bucket

  class S3 {
    const bucket: string
    const throttle: int
    /** The objects of the bucket and their sizes. */
    var objects: map<string, nat>

    constructor (bucket: string, throttle: int, objects: map<string, nat>)
      ensures this.bucket == bucket && this.throttle == throttle && this.objects == objects
    {
      this.bucket := bucket;
      this.throttle := throttle;
      this.objects := objects;
    }

    /** UploadFile: a local file that cannot be opened is an error; otherwise the file (of
        size `local.value`) is read, through a limiter at ReadRate(throttle) unless the
        throttle is zero, and stored under `key` unless the uploader fails. `rate` is the
        limiter's rate in bytes per second, none when the file is read unthrottled or not
        opened. */
    method UploadFile(filename: string, local: Option<nat>, key: string, failure: Option<string>)
      returns (r: Outcome, rate: Option<int>)
      modifies this
      ensures local.None? ==> rate == None
      ensures local.Some? ==> rate == ReadRate(throttle)
      ensures local.None? ==> r == Fail(OpenMissing(filename)) && objects == old(objects)
      ensures local.Some? && failure.Some? ==>
        r == Fail(UploadFailure(filename, failure.value)) && objects == old(objects)
      ensures local.Some? && failure.None? ==> r == Pass && objects == old(objects)[key := local.value]
    {
      if local.None? {
        return Fail(OpenMissing(filename)), None;
      }
      rate := ReadRate(throttle);
      if failure.Some? {
        return Fail(UploadFailure(filename, failure.value)), rate;
      }
      objects := objects[key := local.value];
      return Pass, rate;
    }

    /** IsSnapshotComplete: the marker object below `path` exists. */
    predicate IsSnapshotComplete(path: string)
      reads this
    {
      CompletionProbe(path) in objects
    }

    /** MarkSnapshotComplete: stores the empty marker object of the snapshot; true unless the
        upload fails. */
    method MarkSnapshotComplete(prefix: string, snapshotID: string, failure: Option<string>) returns (ok: bool)
      modifies this
      ensures ok <==> failure.None?
      ensures ok ==> objects == old(objects)[CompletionMarker(prefix, snapshotID) := 0]
      ensures !ok ==> objects == old(objects)
      ensures ok && RelativePath(prefix) && ValidSegment(snapshotID) ==>
        IsSnapshotComplete(FilepathJoin([prefix, snapshotID]))
    {
      if failure.Some? {
        return false;
      }
      objects := objects[CompletionMarker(prefix, snapshotID) := 0];
      if RelativePath(prefix) && ValidSegment(snapshotID) {
        MarkerKeysAgree(prefix, snapshotID);
      }
      return true;
    }

    /** DownloadFiles, one key after the other. */
    method DownloadFiles(disk: LocalDisk, snapshotPath: string, keys: seq<string>, directory: string) returns (r: Outcome)
      modifies disk
      ensures (r, disk.State()) == FetchAll(old(disk.State()), objects, snapshotPath, directory, keys)
    {
      for i := 0 to |keys|
        invariant FetchAll(old(disk.State()), objects, snapshotPath, directory, keys)
               == FetchAll(disk.State(), objects, snapshotPath, directory, keys[i..])
      {
        assert keys[i..][0] == keys[i] && keys[i..][1..] == keys[i + 1..];
        var e := DownloadKey(disk, snapshotPath, keys[i], directory);
        if e.Fail? {
          return e;
        }
      }
      return Pass;
    }

    /** The body of the DownloadFiles loop for one key. */
    method DownloadKey(disk: LocalDisk, snapshotPath: string, key: string, directory: string) returns (r: Outcome)
      modifies disk
      ensures (r, disk.State()) == FetchStep(old(disk.State()), objects, snapshotPath, directory, key)
    {
      var filePath := TrimPrefix(key, snapshotPath);
      var splitPath := SplitOn(filePath, '/');
      if |splitPath| < 2 {
        return Fail(SliceOutOfRange);
      }
      var trimPath := JoinWith(splitPath[2..], "/");
      var localFile := FilepathJoin([directory, trimPath]);
      var dirFolder := Dir(localFile);
      if !(dirFolder in disk.files || dirFolder in disk.dirs) {
        disk.dirs := disk.dirs + {dirFolder};
      }
      if !(localFile in disk.files && key in objects && objects[key] == disk.files[localFile]) {
        if localFile in disk.dirs {
          return Fail("open " + localFile + ": is a directory");
        }
        if dirFolder !in disk.dirs {
          return Fail("open " + localFile + ": not a directory");
        }
        if key !in objects {
          disk.files := disk.files[localFile := 0];
          return Fail("NoSuchKey: " + key);
        }
        disk.files := disk.files[localFile := objects[key]];
      }
      return Pass;
    }
  }
}
