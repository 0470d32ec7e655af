/** The workflows of pkg/snappy/snappy.go: backing up a node's snapshot, preparing and applying
    the source-to-destination node mapping of a restore, and downloading a snapshot onto a
    destination node. */
module Snappy {
  import opened Results
  import opened Strings
  import opened Paths
  import opened Cloud
  import opened Cassandra
  import opened Aws

  const SnapshotFolderPrefix: string := "backups"

  // ---------------------------------------------------------------- Backup

  /** Go ranges over the manifest visiting each of its files once, in some order. */
  ghost predicate Enumerates(order: seq<LocalPath>, files: Manifest) {
    && (forall i, j :: 0 <= i < j < |order| ==> order[i] != order[j])
    && (forall p :: p in files ==> p in order)
    && (forall i :: 0 <= i < |order| ==> order[i] in files)
  }

  function StatError(p: LocalPath): string {
    "stat " + WalkedPath(p) + NoSuchFile
  }

  function UploadError(p: LocalPath, e: string): string {
    UploadFailure(WalkedPath(p), e)
  }

  const NilStore: string := "runtime error: invalid memory address (nil store)"

  /** The providers Backup has a store for. */
  predicate KnownProvider(provider: string) {
    provider == "AWS" || provider == "GCP"
  }

  /** The position of the first file that cannot be stat'ed. */
  function FirstMissing(order: seq<LocalPath>, sizes: map<LocalPath, nat>): (r: Option<nat>)
    ensures r.Some? ==> r.value < |order| && order[r.value] !in sizes
    ensures r.Some? ==> forall j :: 0 <= j < r.value ==> order[j] in sizes
    ensures r.None? <==> forall j :: 0 <= j < |order| ==> order[j] in sizes
  {
    if order == [] then None
    else if order[0] !in sizes then Some(0)
    else
      match FirstMissing(order[1..], sizes)
      case None => None
      case Some(k) => Some(k + 1)
  }

  /** The sum of the sizes of the files, in order. */
  function SizeSum(order: seq<LocalPath>, sizes: map<LocalPath, nat>): int {
    if order == [] then 0
    else
      var last := order[|order| - 1];
      SizeSum(order[..|order| - 1], sizes) + (if last in sizes then sizes[last] else 0)
  }

  /** Adding to a wrapped 64-bit sum wraps the exact sum. */
  lemma WrapAdd(a: int, b: int)
    ensures WrapInt64(WrapInt64(a) + b) == WrapInt64(a + b)
  {
    var q := (a + TwoTo63) / TwoTo64;
    assert a + TwoTo63 == q * TwoTo64 + (a + TwoTo63) % TwoTo64;
    assert WrapInt64(a) + b + TwoTo63 == (a + b + TwoTo63) - q * TwoTo64;
  }

  /** How far the upload loop gets: how it ends, and how many files of `order` it uploaded.
      A failed upload ends it with that error before anything else is uploaded; a file that
      cannot be stat'ed after its upload ends it too, with the stat error when `statErrorFixed`
      and, as the source is written, with the outer `err`, which is nil there. */
  function UploadLoop(order: seq<LocalPath>, uploadFails: map<LocalPath, string>, gone: set<LocalPath>,
                      statErrorFixed: bool): (r: (Outcome, nat))
    ensures r.1 <= |order|
  {
    if order == [] then (Pass, 0)
    else
      var p := order[0];
      if p in uploadFails then (Fail(UploadError(p, uploadFails[p])), 0)
      else if p in gone then (if statErrorFixed then Fail(StatError(p)) else Pass, 1)
      else
        var rest := UploadLoop(order[1..], uploadFails, gone, statErrorFixed);
        (rest.0, rest.1 + 1)
  }

  /** The loop at position `i` of `order`: the file there ends it, or the rest runs on. */
  lemma UploadLoopStep(order: seq<LocalPath>, uploadFails: map<LocalPath, string>, gone: set<LocalPath>,
                       statErrorFixed: bool, i: nat)
    requires i < |order|
    ensures var p := order[i];
      p in uploadFails ==> UploadLoop(order[i..], uploadFails, gone, statErrorFixed) == (Fail(UploadError(p, uploadFails[p])), 0)
    ensures var p := order[i];
      p !in uploadFails && p in gone ==>
        UploadLoop(order[i..], uploadFails, gone, statErrorFixed) == (if statErrorFixed then Fail(StatError(p)) else Pass, 1)
    ensures var p := order[i];
      p !in uploadFails && p !in gone ==>
        var rest := UploadLoop(order[i + 1..], uploadFails, gone, statErrorFixed);
        UploadLoop(order[i..], uploadFails, gone, statErrorFixed) == (rest.0, rest.1 + 1)
  {
    assert order[i..][0] == order[i] && order[i..][1..] == order[i + 1..];
  }

  /** The bucket after uploading the files `ps` in order, each under its key. */
  function Uploaded(objects: map<string, nat>, files: Manifest, sizes: map<LocalPath, nat>, ps: seq<LocalPath>): map<string, nat>
    requires forall i :: 0 <= i < |ps| ==> ps[i] in files && ps[i] in sizes
  {
    if ps == [] then objects
    else
      var last := ps[|ps| - 1];
      Uploaded(objects, files, sizes, ps[..|ps| - 1])[files[last] := sizes[last]]
  }

  /** The upload loop of Backup. */
  method UploadAll(store: S3, files: Manifest, order: seq<LocalPath>, sizes: map<LocalPath, nat>,
                   uploadFails: map<LocalPath, string>, gone: set<LocalPath>, statErrorFixed: bool)
    returns (r: Outcome)
    requires forall i :: 0 <= i < |order| ==> order[i] in files && order[i] in sizes
    modifies store
    ensures r == UploadLoop(order, uploadFails, gone, statErrorFixed).0
    ensures store.objects == Uploaded(old(store.objects), files, sizes, order[..UploadLoop(order, uploadFails, gone, statErrorFixed).1])
  {
    var run := UploadLoop(order, uploadFails, gone, statErrorFixed);
    var i := 0;
    while i < |order|
      invariant 0 <= i <= |order|
      invariant run.0 == UploadLoop(order[i..], uploadFails, gone, statErrorFixed).0
      invariant run.1 == UploadLoop(order[i..], uploadFails, gone, statErrorFixed).1 + i
      invariant store.objects == Uploaded(old(store.objects), files, sizes, order[..i])
    {
      var p := order[i];
      UploadLoopStep(order, uploadFails, gone, statErrorFixed, i);
      var failure := if p in uploadFails then Some(uploadFails[p]) else None;
      var e, _ := store.UploadFile(WalkedPath(p), Some(sizes[p]), files[p], failure);
      if e.Fail? {
        return e;
      }
      assert store.objects == Uploaded(old(store.objects), files, sizes, order[..i + 1]) by {
        assert order[..i + 1][..i] == order[..i];
      }
      if p in gone {
        if statErrorFixed {
          return Fail(StatError(p));
        }
        return Pass;
      }
      i := i + 1;
    }
    assert order[i..] == [];
    return Pass;
  }

  /** Backup after the snapshot and its manifest exist: stat every file of the manifest and
      add up their sizes in Go's 64-bit `int`, then upload the files one by one, stopping at
      the first error. `sizes` are the sizes os.Stat finds, `uploadFails` the files whose
      upload fails and `gone` the files that cannot be stat'ed once uploaded. */
  method BackupWith(store: S3, provider: string, files: Result<Manifest>, order: seq<LocalPath>,
                    sizes: map<LocalPath, nat>, uploadFails: map<LocalPath, string>, gone: set<LocalPath>,
                    statErrorFixed: bool)
    returns (r: Outcome, totalSize: int)
    requires files.Ok? ==> Enumerates(order, files.value)
    modifies store
    ensures files.Err? ==> r == Fail(files.msg) && store.objects == old(store.objects)
    ensures files.Ok? && FirstMissing(order, sizes).Some? ==>
      r == Fail(StatError(order[FirstMissing(order, sizes).value])) && store.objects == old(store.objects)
    ensures files.Ok? && FirstMissing(order, sizes).None? ==> totalSize == WrapInt64(SizeSum(order, sizes))
    ensures files.Ok? && FirstMissing(order, sizes).None? && !KnownProvider(provider) && |order| > 0 ==>
      r == Fail(NilStore) && store.objects == old(store.objects)
    ensures files.Ok? && FirstMissing(order, sizes).None? && (KnownProvider(provider) || |order| == 0) ==>
      && r == UploadLoop(order, uploadFails, gone, statErrorFixed).0
      && store.objects == Uploaded(old(store.objects), files.value, sizes, order[..UploadLoop(order, uploadFails, gone, statErrorFixed).1])
  {
    totalSize := 0;
    if files.Err? {
      return Fail(files.msg), totalSize;
    }
    for i := 0 to |order|
      invariant forall j :: 0 <= j < i ==> order[j] in sizes
      invariant totalSize == WrapInt64(SizeSum(order[..i], sizes))
      invariant store.objects == old(store.objects)
    {
      var path := order[i];
      if path !in sizes {
        return Fail(StatError(path)), totalSize;
      }
      assert order[..i + 1][..i] == order[..i];
      WrapAdd(SizeSum(order[..i], sizes), sizes[path]);
      totalSize := WrapInt64(totalSize + sizes[path]);
    }
    assert order[..|order|] == order;
    if !KnownProvider(provider) && |order| > 0 {
      return Fail(NilStore), totalSize;
    }
    r := UploadAll(store, files.value, order, sizes, uploadFails, gone, statErrorFixed);
  }

  /** Backup as the source writes it: a file that cannot be stat'ed after its upload ends the
      run with the outer `err`, which is nil, so the run reports success. */
  method BackupAsWritten(store: S3, provider: string, files: Result<Manifest>, order: seq<LocalPath>,
                         sizes: map<LocalPath, nat>, uploadFails: map<LocalPath, string>, gone: set<LocalPath>)
    returns (r: Outcome, totalSize: int)
    requires files.Ok? ==> Enumerates(order, files.value)
    modifies store
    ensures files.Ok? && FirstMissing(order, sizes).None? && KnownProvider(provider) ==>
      && r == UploadLoop(order, uploadFails, gone, false).0
      && store.objects == Uploaded(old(store.objects), files.value, sizes, order[..UploadLoop(order, uploadFails, gone, false).1])
  {
    r, totalSize := BackupWith(store, provider, files, order, sizes, uploadFails, gone, false);
  }

  /** Backup with the stat error returned. */
  method Backup(store: S3, provider: string, files: Result<Manifest>, order: seq<LocalPath>,
                sizes: map<LocalPath, nat>, uploadFails: map<LocalPath, string>, gone: set<LocalPath>)
    returns (r: Outcome, totalSize: int)
    requires files.Ok? ==> Enumerates(order, files.value)
    modifies store
    ensures files.Ok? && FirstMissing(order, sizes).None? && KnownProvider(provider) ==>
      && r == UploadLoop(order, uploadFails, gone, true).0
      && store.objects == Uploaded(old(store.objects), files.value, sizes, order[..UploadLoop(order, uploadFails, gone, true).1])
  {
    r, totalSize := BackupWith(store, provider, files, order, sizes, uploadFails, gone, true);
  }

  /** With the stat error returned, a run that reports success uploaded every file, and no
      file failed to upload or vanished. */
  lemma {:induction false} UploadSuccessMeansAll(order: seq<LocalPath>, uploadFails: map<LocalPath, string>, gone: set<LocalPath>)
    requires UploadLoop(order, uploadFails, gone, true).0.Pass?
    ensures UploadLoop(order, uploadFails, gone, true).1 == |order|
    ensures forall i :: 0 <= i < |order| ==> order[i] !in uploadFails && order[i] !in gone
  {
    if order != [] {
      UploadSuccessMeansAll(order[1..], uploadFails, gone);
      forall i | 1 <= i < |order|
        ensures order[i] !in uploadFails && order[i] !in gone
      {
        assert order[i] == order[1..][i - 1];
      }
    }
  }

  /** The run stops at position `k`: every file before it was uploaded and stayed, and `k`
      either failed to upload or vanished after its upload with the stat error returned. */
  predicate StopsAt(order: seq<LocalPath>, uploadFails: map<LocalPath, string>, gone: set<LocalPath>,
                    statErrorFixed: bool, k: int)
  {
    && 0 <= k < |order|
    && (forall j :: 0 <= j < k ==> order[j] !in uploadFails && order[j] !in gone)
    && (|| (order[k] in uploadFails &&
            UploadLoop(order, uploadFails, gone, statErrorFixed) == (Fail(UploadError(order[k], uploadFails[order[k]])), k))
        || (order[k] !in uploadFails && order[k] in gone && statErrorFixed &&
            UploadLoop(order, uploadFails, gone, statErrorFixed) == (Fail(StatError(order[k])), k + 1)))
  }

  /** A failing run stops at the first file that failed to upload or vanished: everything
      before it was uploaded, and nothing after it. */
  lemma {:induction false} UploadStopsAtFirstError(order: seq<LocalPath>, uploadFails: map<LocalPath, string>,
                                                   gone: set<LocalPath>, statErrorFixed: bool)
    requires UploadLoop(order, uploadFails, gone, statErrorFixed).0.Fail?
    ensures exists k :: StopsAt(order, uploadFails, gone, statErrorFixed, k)
  {
    var p := order[0];
    if p !in uploadFails && p !in gone {
      UploadStopsAtFirstError(order[1..], uploadFails, gone, statErrorFixed);
      var k :| StopsAt(order[1..], uploadFails, gone, statErrorFixed, k);
      assert order[1..][k] == order[k + 1];
      forall j | 0 <= j < k + 1
        ensures order[j] !in uploadFails && order[j] !in gone
      {
        if j > 0 {
          assert order[j] == order[1..][j - 1];
        }
      }
      assert StopsAt(order, uploadFails, gone, statErrorFixed, k + 1);
    } else {
      assert StopsAt(order, uploadFails, gone, statErrorFixed, 0);
    }
  }

  /** The source's run reports success although a file was never uploaded: the first file is
      uploaded and then cannot be stat'ed, and the second file is left behind. */
  lemma BackupAsWrittenLosesFiles(p: LocalPath, q: LocalPath)
    requires p != q
    ensures UploadLoop([p, q], map[], {p}, false) == (Pass, 1)
    ensures UploadLoop([p, q], map[], {p}, true) == (Fail(StatError(p)), 1)
  {
  }

  /** Every file uploaded has its key in the bucket; when no two of the files share a key, each
      key holds its own file's size. */
  lemma {:induction false} UploadedHolds(objects: map<string, nat>, files: Manifest, sizes: map<LocalPath, nat>,
                                         ps: seq<LocalPath>, k: nat)
    requires forall i :: 0 <= i < |ps| ==> ps[i] in files && ps[i] in sizes
    requires k < |ps|
    ensures files[ps[k]] in Uploaded(objects, files, sizes, ps)
    ensures (forall i :: 0 <= i < |ps| && i != k ==> files[ps[i]] != files[ps[k]]) ==>
      Uploaded(objects, files, sizes, ps)[files[ps[k]]] == sizes[ps[k]]
  {
    if k < |ps| - 1 {
      var init := ps[..|ps| - 1];
      UploadedHolds(objects, files, sizes, init, k);
      if forall i :: 0 <= i < |ps| && i != k ==> files[ps[i]] != files[ps[k]] {
        assert files[ps[|ps| - 1]] != files[ps[k]];
        forall i | 0 <= i < |init| && i != k
          ensures files[init[i]] != files[init[k]]
        {
          assert init[i] == ps[i];
        }
      }
    }
  }

  // ---------------------------------------------------------------- the node mapping

  /** One source node, the destination node that takes its place, and the source's tokens
      (None stands for a nil list). */
  datatype NodeMapping = NodeMapping(source: string, destination: string, tokenRange: Option<seq<string>>)

  datatype PrepareMapping = PrepareMapping(clusterName: string, nodes: seq<NodeMapping>)

  const NodeCountMismatch: string := "the number of source nodes must match the number of destination nodes"

  /** RestorePrepare: pairs the i-th source node with the i-th destination node and the
      source's token range, in input order. Lists of different lengths are refused before any
      token range is asked for; a token range that cannot be read is fatal. */
  method RestorePrepare(clusterName: string, sourceNodes: seq<string>, destinationNodes: seq<string>,
                        tokenRange: string -> Result<Option<seq<string>>>)
    returns (r: Result<PrepareMapping>)
    ensures |sourceNodes| != |destinationNodes| ==> r == Err(NodeCountMismatch)
    ensures |sourceNodes| == |destinationNodes| ==>
      (r.Ok? <==> forall i :: 0 <= i < |sourceNodes| ==> tokenRange(sourceNodes[i]).Ok?)
    ensures r.Ok? ==>
      && r.value.clusterName == clusterName
      && |r.value.nodes| == |sourceNodes|
      && forall i :: 0 <= i < |sourceNodes| ==>
           r.value.nodes[i] == NodeMapping(sourceNodes[i], destinationNodes[i], tokenRange(sourceNodes[i]).value)
    ensures r.Err? && |sourceNodes| == |destinationNodes| ==>
      exists i :: 0 <= i < |sourceNodes| && tokenRange(sourceNodes[i]).Err? && r.msg == tokenRange(sourceNodes[i]).msg &&
        forall j :: 0 <= j < i ==> tokenRange(sourceNodes[j]).Ok?
  {
    if |sourceNodes| != |destinationNodes| {
      return Err(NodeCountMismatch);
    }
    var nodes: seq<NodeMapping> := [];
    for idx := 0 to |sourceNodes|
      invariant |nodes| == idx
      invariant forall i :: 0 <= i < idx ==> tokenRange(sourceNodes[i]).Ok?
      invariant forall i :: 0 <= i < idx ==>
        nodes[i] == NodeMapping(sourceNodes[i], destinationNodes[i], tokenRange(sourceNodes[i]).value)
    {
      var srcNode := sourceNodes[idx];
      var dstNode := destinationNodes[idx];
      var tokens := tokenRange(srcNode);
      if tokens.Err? {
        return Err(tokens.msg);
      }
      nodes := nodes + [NodeMapping(srcNode, dstNode, tokens.value)];
    }
    return Ok(PrepareMapping(clusterName, nodes));
  }

  /** The position of the first mapping whose destination is `dst`. */
  function FirstByDestination(nodes: seq<NodeMapping>, dst: string): (r: Option<nat>)
    ensures r.Some? ==> r.value < |nodes| && nodes[r.value].destination == dst
    ensures r.Some? ==> forall j :: 0 <= j < r.value ==> nodes[j].destination != dst
    ensures r.None? <==> forall j :: 0 <= j < |nodes| ==> nodes[j].destination != dst
  {
    if nodes == [] then None
    else if nodes[0].destination == dst then Some(0)
    else
      match FirstByDestination(nodes[1..], dst)
      case None => None
      case Some(k) => Some(k + 1)
  }

  /** The scan over the mapping that RestoreApply and DownloadSnapshot both make. */
  method FindNode(nodes: seq<NodeMapping>, dst: string) returns (found: Option<NodeMapping>)
    ensures found.Some? <==> FirstByDestination(nodes, dst).Some?
    ensures found.Some? ==> found.value == nodes[FirstByDestination(nodes, dst).value]
  {
    for i := 0 to |nodes|
      invariant forall j :: 0 <= j < i ==> nodes[j].destination != dst
    {
      if dst == nodes[i].destination {
        return Some(nodes[i]);
      }
    }
    return None;
  }

  function NodeNotFound(dst: string): string {
    "could not find node: " + dst + " in mapping file"
  }

  const TokenAlreadySet: string := "initial_token has already been set.. aborting"

  /** The two lines RestoreApply appends start with these texts. */
  const InitialTokenKey: string := "initial_token: "
  const AutoBootstrapOff: string := "auto_bootstrap: false"

  /** A text ended by a newline. */
  function Line(s: string): string {
    s + "\n"
  }

  /** The lines RestoreApply appends to cassandra.yaml. */
  function TokenLines(tokens: seq<string>): string {
    Line(InitialTokenKey + JoinWith(tokens, ", ")) + Line(AutoBootstrapOff)
  }

  /** The tokens RestoreApply writes, or why it stops: a configuration that already sets
      initial_token, a destination that is not in the mapping or whose first mapping has a nil
      token range, or a configuration file that cannot be opened for appending. */
  function ApplyPlan(settings: Config, dstNode: string, nodes: seq<NodeMapping>, openError: Option<string>): (r: Result<seq<string>>)
    ensures InitialToken in settings ==> r == Err(TokenAlreadySet)
    ensures InitialToken !in settings && FirstByDestination(nodes, dstNode).None? ==> r == Err(NodeNotFound(dstNode))
    ensures r.Ok? ==>
      && openError.None?
      && FirstByDestination(nodes, dstNode).Some?
      && nodes[FirstByDestination(nodes, dstNode).value].tokenRange == Some(r.value)
  {
    if InitialToken in settings then Err(TokenAlreadySet)
    else
      match FirstByDestination(nodes, dstNode)
      case None => Err(NodeNotFound(dstNode))
      case Some(i) =>
        match nodes[i].tokenRange
        case None => Err(NodeNotFound(dstNode))
        case Some(tokens) =>
          if openError.Some? then Err(openError.value) else Ok(tokens)
  }

  /** cassandra.yaml: its text, and the settings parsing it gives. */
  class ConfigFile {
    var text: string
    var settings: Config

    constructor (text: string, settings: Config)
      ensures this.text == text && this.settings == settings
    {
      this.text := text;
      this.settings := settings;
    }
  }

  /** The settings of a configuration with the appended lines: initial_token is set, to
      whatever the appended token line parses to, and auto_bootstrap is false. */
  function WithTokens(settings: Config, token: Value): Config {
    settings[InitialToken := token][AutoBootstrap := Bool(false)]
  }

  /** A text that a further appended line starts a line of its own in. */
  predicate AtLineStart(text: string) {
    text == [] || text[|text| - 1] == '\n'
  }

  /** RestoreApply: appends the destination node's initial_token and auto_bootstrap lines to
      its configuration, or fails leaving the configuration as it was. When the old text ends
      mid-line, the first appended line continues that line, and what parsing then gives is
      `parsedMidLine`, supplied by the caller. Otherwise `parsedToken` is what the appended
      `initial_token` line parses to: a string for several tokens, but a number for one
      numeric token and null for none. */
  method RestoreApply(file: ConfigFile, dstNode: string, mapping: PrepareMapping, openError: Option<string>,
                      parsedToken: Value, parsedMidLine: Config)
    returns (r: Outcome)
    modifies file
    ensures ApplyPlan(old(file.settings), dstNode, mapping.nodes, openError).Err? ==>
      && r == Fail(ApplyPlan(old(file.settings), dstNode, mapping.nodes, openError).msg)
      && file.text == old(file.text) && file.settings == old(file.settings)
    ensures ApplyPlan(old(file.settings), dstNode, mapping.nodes, openError).Ok? ==>
      var tokens := ApplyPlan(old(file.settings), dstNode, mapping.nodes, openError).value;
      && r == Pass
      && file.text == old(file.text) + TokenLines(tokens)
      && file.settings == (if AtLineStart(old(file.text)) then WithTokens(old(file.settings), parsedToken) else parsedMidLine)
  {
    if InitialToken in file.settings {
      return Fail(TokenAlreadySet);
    }
    var atLineStart := AtLineStart(file.text);
    var node := FindNode(mapping.nodes, dstNode);
    if node.None? || node.value.tokenRange.None? {
      return Fail(NodeNotFound(dstNode));
    }
    if openError.Some? {
      return Fail(openError.value);
    }
    var tokenRange := node.value.tokenRange.value;
    assert ApplyPlan(old(file.settings), dstNode, mapping.nodes, openError) == Ok(tokenRange);
    var initialToken := InitialTokenKey + JoinWith(tokenRange, ", ") + "\n";
    file.text := file.text + initialToken;
    var autoBootstrap := AutoBootstrapOff + "\n";
    file.text := file.text + autoBootstrap;
    assert file.text == old(file.text) + TokenLines(tokenRange);
    if atLineStart {
      file.settings := WithTokens(file.settings, parsedToken);
    } else {
      file.settings := parsedMidLine;
    }
    r := Pass;
  }

  /** A configuration RestoreApply has written to, when its old text ended with a newline, is
      refused the next time. */
  lemma ApplyOnlyOnce(settings: Config, token: Value, dstNode: string, nodes: seq<NodeMapping>, openError: Option<string>)
    ensures ApplyPlan(WithTokens(settings, token), dstNode, nodes, openError) == Err(TokenAlreadySet)
  {
  }

  lemma {:induction false} JoinWithAvoids(parts: seq<string>, sep: string, c: char)
    requires c !in sep && forall i :: 0 <= i < |parts| ==> c !in parts[i]
    ensures c !in JoinWith(parts, sep)
  {
    if |parts| > 1 {
      JoinWithAvoids(parts[1..], sep, c);
    }
  }

  /** Two lines, each ended by a newline, split into the two lines and an empty remainder. */
  lemma SplitTwoLines(a: string, b: string)
    requires '\n' !in a && '\n' !in b
    ensures SplitOn(Line(a) + Line(b), '\n') == [a, b, ""]
  {
    SplitOnFirstPiece(b, '\n', "");
    assert b + ['\n'] + "" == Line(b);
    SplitOnFirstPiece(a, '\n', Line(b));
    assert a + ['\n'] + Line(b) == Line(a) + Line(b);
  }

  lemma TokenKeysOneLine()
    ensures '\n' !in InitialTokenKey && '\n' !in AutoBootstrapOff
  {
  }

  /** The appended text is exactly two lines, the joined tokens and auto_bootstrap: false. */
  lemma TokenLinesAreTwoLines(tokens: seq<string>)
    requires forall i :: 0 <= i < |tokens| ==> '\n' !in tokens[i]
    ensures SplitOn(TokenLines(tokens), '\n') == [InitialTokenKey + JoinWith(tokens, ", "), AutoBootstrapOff, ""]
  {
    var first := InitialTokenKey + JoinWith(tokens, ", ");
    var second := AutoBootstrapOff;
    TokenKeysOneLine();
    assert '\n' !in first by {
      JoinWithAvoids(tokens, ", ", '\n');
    }
    SplitTwoLines(first, second);
  }

  // ---------------------------------------------------------------- the download index

  datatype SnapshotTable = SnapshotTable(name: string, srcUUID: string, dstUUID: string)
  datatype Snapshot = Snapshot(keyspace: string, tables: seq<SnapshotTable>)

  /** The id of a table of the local schema (FindTableUUID), by keyspace and table name. */
  type UUIDFinder = (string, string) -> Result<string>
  /** The data directory of a table of the local schema (FindTablePath). */
  type PathFinder = (string, string) -> Result<string>

  const TableMissingTail: string :=
    "] on local filesystem, but it looks to be missing. check schema to make sure table exists. aborting..."

  function TableMissing(keyspace: string, table: string): string {
    "tried to locate [keyspace: " + keyspace + "] [table: " + table + TableMissingTail
  }

  /** The index entry of a listed table folder `name-uuid` whose table has the local id `dst`. */
  function TableEntry(folder: string, dst: string): SnapshotTable {
    SnapshotTable(Split(folder, "-").0, Split(folder, "-").1, dst)
  }

  /** One listed table folder, after the tables kept before it: its table is looked up
      locally by the name before the first dash; a missing table is fatal unless tables may
      be skipped. */
  function KeepTable(keyspace: string, folder: string, kept: seq<SnapshotTable>, findUUID: UUIDFinder,
                     skipTables: bool): Result<seq<SnapshotTable>>
  {
    var name := Split(folder, "-").0;
    match findUUID(keyspace, name)
    case Err(_) => if skipTables then Ok(kept) else Err(TableMissing(keyspace, name))
    case Ok(dst) => Ok(kept + [TableEntry(folder, dst)])
  }

  /** The tables of a keyspace the index keeps: every listed folder whose table exists
      locally, in listing order; a missing table is fatal unless tables may be skipped. */
  function KeptTables(keyspace: string, folders: seq<string>, findUUID: UUIDFinder, skipTables: bool): Result<seq<SnapshotTable>>
  {
    if folders == [] then Ok([])
    else
      match KeptTables(keyspace, folders[..|folders| - 1], findUUID, skipTables)
      case Err(e) => Err(e)
      case Ok(kept) => KeepTable(keyspace, folders[|folders| - 1], kept, findUUID, skipTables)
  }

  /** One more listed folder. */
  lemma KeptTablesStep(keyspace: string, folders: seq<string>, j: nat, findUUID: UUIDFinder, skipTables: bool,
                       kept: seq<SnapshotTable>)
    requires j < |folders| && KeptTables(keyspace, folders[..j], findUUID, skipTables) == Ok(kept)
    ensures KeptTables(keyspace, folders[..j + 1], findUUID, skipTables)
         == KeepTable(keyspace, folders[j], kept, findUUID, skipTables)
  {
    var fs := folders[..j + 1];
    assert fs[..|fs| - 1] == folders[..j];
    assert fs[|fs| - 1] == folders[j];
  }

  predicate Located(keyspace: string, folder: string, findUUID: UUIDFinder) {
    findUUID(keyspace, Split(folder, "-").0).Ok?
  }

  /** Building the index fails exactly when a table is missing and tables may not be skipped. */
  lemma {:induction false} KeptTablesFails(keyspace: string, folders: seq<string>, findUUID: UUIDFinder, skipTables: bool)
    ensures KeptTables(keyspace, folders, findUUID, skipTables).Err? <==>
      !skipTables && exists i :: 0 <= i < |folders| && !Located(keyspace, folders[i], findUUID)
  {
    if folders != [] {
      var init := folders[..|folders| - 1];
      KeptTablesFails(keyspace, init, findUUID, skipTables);
      if exists i :: 0 <= i < |init| && !Located(keyspace, init[i], findUUID) {
        var i :| 0 <= i < |init| && !Located(keyspace, init[i], findUUID);
        assert folders[i] == init[i];
      }
      if exists i :: 0 <= i < |folders| && !Located(keyspace, folders[i], findUUID) {
        var i :| 0 <= i < |folders| && !Located(keyspace, folders[i], findUUID);
        if i < |init| {
          assert init[i] == folders[i];
        }
      }
    }
  }

  /** In strict mode a successful index keeps every listed table, in listing order. */
  lemma {:induction false} KeptTablesStrict(keyspace: string, folders: seq<string>, findUUID: UUIDFinder)
    requires KeptTables(keyspace, folders, findUUID, false).Ok?
    ensures |KeptTables(keyspace, folders, findUUID, false).value| == |folders|
    ensures forall i :: 0 <= i < |folders| ==>
      && Located(keyspace, folders[i], findUUID)
      && KeptTables(keyspace, folders, findUUID, false).value[i] ==
           TableEntry(folders[i], findUUID(keyspace, Split(folders[i], "-").0).value)
  {
    if folders != [] {
      var init := folders[..|folders| - 1];
      KeptTablesStrict(keyspace, init, findUUID);
      forall i | 0 <= i < |init|
        ensures folders[i] == init[i]
      {
      }
    }
  }

  /** The listed folders whose table exists locally, each with its local id, in listing order. */
  function LocatedTables(keyspace: string, folders: seq<string>, findUUID: UUIDFinder): seq<SnapshotTable>
    decreases |folders|
  {
    if folders == [] then []
    else
      var rest := LocatedTables(keyspace, folders[1..], findUUID);
      var name := Split(folders[0], "-").0;
      if Located(keyspace, folders[0], findUUID) then [TableEntry(folders[0], findUUID(keyspace, name).value)] + rest
      else rest
  }

  /** Filtering a listing with one more folder at its end. */
  lemma {:induction false} LocatedTablesSnoc(keyspace: string, folders: seq<string>, folder: string, findUUID: UUIDFinder)
    ensures LocatedTables(keyspace, folders + [folder], findUUID)
         == LocatedTables(keyspace, folders, findUUID)
            + (if Located(keyspace, folder, findUUID)
               then [TableEntry(folder, findUUID(keyspace, Split(folder, "-").0).value)] else [])
    decreases |folders|
  {
    if folders == [] {
      assert ([] + [folder])[1..] == [];
    } else {
      assert (folders + [folder])[0] == folders[0];
      assert (folders + [folder])[1..] == folders[1..] + [folder];
      LocatedTablesSnoc(keyspace, folders[1..], folder, findUUID);
    }
  }

  /** In lenient mode indexing always succeeds and keeps exactly the listed tables that exist
      locally, in listing order. */
  lemma {:induction false} KeptTablesLenient(keyspace: string, folders: seq<string>, findUUID: UUIDFinder)
    ensures KeptTables(keyspace, folders, findUUID, true) == Ok(LocatedTables(keyspace, folders, findUUID))
    decreases |folders|
  {
    if folders != [] {
      var init := folders[..|folders| - 1];
      var last := folders[|folders| - 1];
      KeptTablesLenient(keyspace, init, findUUID);
      LocatedTablesSnoc(keyspace, init, last, findUUID);
      assert init + [last] == folders;
      var kept := LocatedTables(keyspace, init, findUUID);
      assert KeptTables(keyspace, folders, findUUID, true) == KeepTable(keyspace, last, kept, findUUID, true);
      assert LocatedTables(keyspace, folders, findUUID) == LocatedTables(keyspace, init + [last], findUUID);
      if Located(keyspace, last, findUUID) {
        assert KeepTable(keyspace, last, kept, findUUID, true)
            == Ok(kept + [TableEntry(last, findUUID(keyspace, Split(last, "-").0).value)]);
      } else {
        assert KeepTable(keyspace, last, kept, findUUID, true) == Ok(kept);
        assert kept + [] == kept;
      }
    }
  }

  /** A table is located exactly when its folder is listed and its table exists locally. */
  lemma {:induction false} LocatedTablesMembers(keyspace: string, folders: seq<string>, findUUID: UUIDFinder, t: SnapshotTable)
    ensures t in LocatedTables(keyspace, folders, findUUID) <==>
      exists i :: 0 <= i < |folders| && Located(keyspace, folders[i], findUUID) &&
        t == TableEntry(folders[i], findUUID(keyspace, Split(folders[i], "-").0).value)
    decreases |folders|
  {
    if folders != [] {
      var tail := folders[1..];
      LocatedTablesMembers(keyspace, tail, findUUID, t);
      if exists i :: 0 <= i < |tail| && Located(keyspace, tail[i], findUUID) &&
           t == TableEntry(tail[i], findUUID(keyspace, Split(tail[i], "-").0).value) {
        var i :| 0 <= i < |tail| && Located(keyspace, tail[i], findUUID) &&
           t == TableEntry(tail[i], findUUID(keyspace, Split(tail[i], "-").0).value);
        assert folders[i + 1] == tail[i];
      }
      if exists i :: 0 <= i < |folders| && Located(keyspace, folders[i], findUUID) &&
           t == TableEntry(folders[i], findUUID(keyspace, Split(folders[i], "-").0).value) {
        var i :| 0 <= i < |folders| && Located(keyspace, folders[i], findUUID) &&
           t == TableEntry(folders[i], findUUID(keyspace, Split(folders[i], "-").0).value);
        if i > 0 {
          assert tail[i - 1] == folders[i];
        }
      }
    }
  }

  /** A table folder `name-uuid` is listed again under the same folder name: the name is the
      text before the first dash and the id the rest. */
  lemma TableFolderRoundTrip(folder: string)
    requires Contains(folder, "-")
    ensures TableEntry(folder, "").name + "-" + TableEntry(folder, "").srcUUID == folder
    ensures '-' !in TableEntry(folder, "").name
  {
    var r := Split(folder, "-");
    SplitCuts(folder, "-");
    if '-' in r.0 {
      var k :| 0 <= k < |r.0| && r.0[k] == '-';
      assert OccursAt(r.0, "-", k);
    }
  }

  /** The index entry of one keyspace: its tables listed under the snapshot folder, kept as
      KeptTables says. */
  function KeyspaceIndex(list: Lister, folder: string, keyspace: string, findUUID: UUIDFinder, skipTables: bool): Result<Snapshot> {
    var listing := list(TablesRequest(folder, keyspace));
    if listing.err.Some? then Err(ListError(listing.err.value))
    else
      match KeptTables(keyspace, ListedNames(listing.pages), findUUID, skipTables)
      case Err(e) => Err(e)
      case Ok(kept) => Ok(Snapshot(keyspace, kept))
  }

  function SnapshotIndex(list: Lister, folder: string, keyspaces: seq<string>, findUUID: UUIDFinder, skipTables: bool): Result<seq<Snapshot>> {
    if keyspaces == [] then Ok([])
    else
      match SnapshotIndex(list, folder, keyspaces[..|keyspaces| - 1], findUUID, skipTables)
      case Err(e) => Err(e)
      case Ok(index) =>
        match KeyspaceIndex(list, folder, keyspaces[|keyspaces| - 1], findUUID, skipTables)
        case Err(e) => Err(e)
        case Ok(entry) => Ok(index + [entry])
  }

  /** Once a prefix of the tables fails, the whole list fails with the same error. */
  lemma {:induction false} KeptTablesErrPersists(keyspace: string, folders: seq<string>, n: nat,
                                                 findUUID: UUIDFinder, skipTables: bool)
    requires n <= |folders| && KeptTables(keyspace, folders[..n], findUUID, skipTables).Err?
    ensures KeptTables(keyspace, folders, findUUID, skipTables) == KeptTables(keyspace, folders[..n], findUUID, skipTables)
  {
    if n < |folders| {
      var init := folders[..|folders| - 1];
      assert init[..n] == folders[..n];
      KeptTablesErrPersists(keyspace, init, n, findUUID, skipTables);
    } else {
      assert folders[..n] == folders;
    }
  }

  /** Once a prefix of the keyspaces fails, the whole index fails with the same error. */
  lemma {:induction false} SnapshotIndexErrPersists(list: Lister, folder: string, keyspaces: seq<string>, n: nat,
                                                    findUUID: UUIDFinder, skipTables: bool)
    requires n <= |keyspaces| && SnapshotIndex(list, folder, keyspaces[..n], findUUID, skipTables).Err?
    ensures SnapshotIndex(list, folder, keyspaces, findUUID, skipTables) == SnapshotIndex(list, folder, keyspaces[..n], findUUID, skipTables)
  {
    if n < |keyspaces| {
      var init := keyspaces[..|keyspaces| - 1];
      assert init[..n] == keyspaces[..n];
      SnapshotIndexErrPersists(list, folder, init, n, findUUID, skipTables);
    } else {
      assert keyspaces[..n] == keyspaces;
    }
  }

  /** Every keyspace gets an entry of its own, in listing order, even one without tables. */
  lemma {:induction false} SnapshotIndexCoversKeyspaces(list: Lister, folder: string, keyspaces: seq<string>,
                                                        findUUID: UUIDFinder, skipTables: bool)
    requires SnapshotIndex(list, folder, keyspaces, findUUID, skipTables).Ok?
    ensures |SnapshotIndex(list, folder, keyspaces, findUUID, skipTables).value| == |keyspaces|
    ensures forall i :: 0 <= i < |keyspaces| ==>
      && KeyspaceIndex(list, folder, keyspaces[i], findUUID, skipTables).Ok?
      && SnapshotIndex(list, folder, keyspaces, findUUID, skipTables).value[i] ==
           KeyspaceIndex(list, folder, keyspaces[i], findUUID, skipTables).value
  {
    if keyspaces != [] {
      var init := keyspaces[..|keyspaces| - 1];
      var index := SnapshotIndex(list, folder, keyspaces, findUUID, skipTables).value;
      var before := SnapshotIndex(list, folder, init, findUUID, skipTables);
      var last := KeyspaceIndex(list, folder, keyspaces[|keyspaces| - 1], findUUID, skipTables);
      assert before.Ok? && last.Ok? && index == before.value + [last.value];
      SnapshotIndexCoversKeyspaces(list, folder, init, findUUID, skipTables);
      forall i | 0 <= i < |keyspaces|
        ensures KeyspaceIndex(list, folder, keyspaces[i], findUUID, skipTables).Ok?
        ensures index[i] == KeyspaceIndex(list, folder, keyspaces[i], findUUID, skipTables).value
      {
        if i < |init| {
          assert keyspaces[i] == init[i];
        }
      }
    }
  }

  /** The body of the table loop, for one listed folder. */
  method IndexTable(keyspace: string, folder: string, kept: seq<SnapshotTable>, findUUID: UUIDFinder, skipTables: bool)
    returns (r: Result<seq<SnapshotTable>>)
    ensures r == KeepTable(keyspace, folder, kept, findUUID, skipTables)
  {
    var parts := Split(folder, "-");
    var tableName := parts.0;
    var dstUUID := findUUID(keyspace, tableName);
    if dstUUID.Err? {
      if !skipTables {
        return Err(TableMissing(keyspace, tableName));
      }
      return Ok(kept);
    }
    return Ok(kept + [SnapshotTable(tableName, parts.1, dstUUID.value)]);
  }

  /** The table loop of one keyspace. */
  method IndexKeyspace(list: Lister, folder: string, keyspace: string, findUUID: UUIDFinder, skipTables: bool)
    returns (r: Result<Snapshot>)
    ensures r == KeyspaceIndex(list, folder, keyspace, findUUID, skipTables)
  {
    var tables := ListTables(list, folder, keyspace);
    if tables.Err? {
      return Err(tables.msg);
    }
    var names := tables.value;
    var snapshotTables: seq<SnapshotTable> := [];
    for j := 0 to |names|
      invariant KeptTables(keyspace, names[..j], findUUID, skipTables) == Ok(snapshotTables)
    {
      KeptTablesStep(keyspace, names, j, findUUID, skipTables, snapshotTables);
      var step := IndexTable(keyspace, names[j], snapshotTables, findUUID, skipTables);
      if step.Err? {
        KeptTablesErrPersists(keyspace, names, j + 1, findUUID, skipTables);
        return Err(step.msg);
      }
      snapshotTables := step.value;
    }
    assert names[..|names|] == names;
    return Ok(Snapshot(keyspace, snapshotTables));
  }

  /** The keyspace loop that builds the index. */
  method BuildIndex(list: Lister, folder: string, keyspaces: seq<string>, findUUID: UUIDFinder, skipTables: bool)
    returns (r: Result<seq<Snapshot>>)
    ensures r == SnapshotIndex(list, folder, keyspaces, findUUID, skipTables)
  {
    var snapshotIndex: seq<Snapshot> := [];
    for i := 0 to |keyspaces|
      invariant SnapshotIndex(list, folder, keyspaces[..i], findUUID, skipTables) == Ok(snapshotIndex)
    {
      assert keyspaces[..i + 1][..i] == keyspaces[..i];
      var snapshot := IndexKeyspace(list, folder, keyspaces[i], findUUID, skipTables);
      if snapshot.Err? {
        SnapshotIndexErrPersists(list, folder, keyspaces, i + 1, findUUID, skipTables);
        return Err(snapshot.msg);
      }
      snapshotIndex := snapshotIndex + [snapshot.value];
    }
    assert keyspaces[..|keyspaces|] == keyspaces;
    return Ok(snapshotIndex);
  }

  // ---------------------------------------------------------------- DownloadSnapshot

  /** The folder of a node's snapshot: backups/<id>/<node>/. */
  function SnapshotFolder(snapshotID: string, srcNode: string): string {
    FilepathJoin([SnapshotFolderPrefix, snapshotID, srcNode]) + "/"
  }

  lemma SnapshotFolderSegments(snapshotID: string, srcNode: string)
    requires ValidSegment(snapshotID) && ValidSegment(srcNode)
    ensures SnapshotFolder(snapshotID, srcNode) == Slashed([SnapshotFolderPrefix, snapshotID, srcNode]) + "/"
  {
    FilepathJoinValid([SnapshotFolderPrefix, snapshotID, srcNode]);
  }

  /** The snapshot folder written out: backups/<id>/<node>/. */
  lemma SnapshotFolderText(snapshotID: string, srcNode: string)
    requires ValidSegment(snapshotID) && ValidSegment(srcNode)
    ensures SnapshotFolder(snapshotID, srcNode) == "backups/" + snapshotID + "/" + srcNode + "/"
  {
    SnapshotFolderSegments(snapshotID, srcNode);
    assert [SnapshotFolderPrefix, snapshotID, srcNode][1..] == [snapshotID, srcNode];
    assert [snapshotID, srcNode][1..] == [srcNode];
    assert JoinWith([snapshotID, srcNode], "/") == snapshotID + "/" + srcNode;
    assert Slashed([SnapshotFolderPrefix, snapshotID, srcNode]) == "backups" + "/" + (snapshotID + "/" + srcNode);
    assert "backups" + "/" == "backups/";
  }

  /** Everything DownloadSnapshot settles before it downloads: the snapshot folder of the
      source node and the index, or the fatal error that stops it first. */
  function DownloadPlan(list: Lister, findUUID: UUIDFinder, dstNode: string, snapshotID: string,
                        mapping: PrepareMapping, skipTables: bool): (r: Result<(string, seq<Snapshot>)>)
    ensures FirstByDestination(mapping.nodes, dstNode).None? ==> r == Err(NodeNotFound(dstNode))
    ensures r.Ok? ==>
      && FirstByDestination(mapping.nodes, dstNode).Some?
      && r.value.0 == SnapshotFolder(snapshotID, mapping.nodes[FirstByDestination(mapping.nodes, dstNode).value].source)
  {
    match FirstByDestination(mapping.nodes, dstNode)
    case None => Err(NodeNotFound(dstNode))
    case Some(i) =>
      var folder := SnapshotFolder(snapshotID, mapping.nodes[i].source);
      var listing := list(KeyspacesRequest(folder));
      if listing.err.Some? then Err(ListError(listing.err.value))
      else
        match SnapshotIndex(list, folder, NonSystem(ListedNames(listing.pages)), findUUID, skipTables)
        case Err(e) => Err(e)
        case Ok(index) => Ok((folder, index))
  }

  /** One table of the index: list its files, find its local directory, download. */
  function RestoreTable(d: Disk, objects: map<string, nat>, list: Lister, findPath: PathFinder,
                        folder: string, keyspace: string, table: SnapshotTable): (Outcome, Disk) {
    var listing := list(SnapshotFilesRequest(folder, keyspace, table.name, table.srcUUID));
    if listing.err.Some? then (Fail(ListError(listing.err.value)), d)
    else
      match findPath(keyspace, table.name)
      case Err(e) => (Fail(e), d)
      case Ok(directory) => FetchAll(d, objects, folder, directory, ListedKeys(listing.pages))
  }

  function RestoreTables(d: Disk, objects: map<string, nat>, list: Lister, findPath: PathFinder,
                         folder: string, keyspace: string, tables: seq<SnapshotTable>): (Outcome, Disk)
    decreases |tables|
  {
    if tables == [] then (Pass, d)
    else
      var step := RestoreTable(d, objects, list, findPath, folder, keyspace, tables[0]);
      if step.0.Fail? then step
      else RestoreTables(step.1, objects, list, findPath, folder, keyspace, tables[1..])
  }

  function RestoreIndex(d: Disk, objects: map<string, nat>, list: Lister, findPath: PathFinder,
                        folder: string, index: seq<Snapshot>): (Outcome, Disk)
    decreases |index|
  {
    if index == [] then (Pass, d)
    else
      var step := RestoreTables(d, objects, list, findPath, folder, index[0].keyspace, index[0].tables);
      if step.0.Fail? then step
      else RestoreIndex(step.1, objects, list, findPath, folder, index[1..])
  }

  /** The body of the table loop of DownloadSnapshot, for one table of the index. */
  method RestoreTableFiles(store: S3, disk: LocalDisk, list: Lister, findPath: PathFinder,
                           snapshotFolder: string, keyspace: string, table: SnapshotTable)
    returns (r: Outcome)
    modifies disk
    ensures (r, disk.State()) == RestoreTable(old(disk.State()), store.objects, list, findPath, snapshotFolder, keyspace, table)
  {
    var remoteFiles := ListSnapshotFiles(list, snapshotFolder, keyspace, table.name, table.srcUUID);
    if remoteFiles.Err? {
      return Fail(remoteFiles.msg);
    }
    var downloadFolder := findPath(keyspace, table.name);
    if downloadFolder.Err? {
      return Fail(downloadFolder.msg);
    }
    r := store.DownloadFiles(disk, snapshotFolder, remoteFiles.value, downloadFolder.value);
  }

  /** The table loop of DownloadSnapshot, for one keyspace of the index. */
  method RestoreKeyspace(store: S3, disk: LocalDisk, list: Lister, findPath: PathFinder,
                         snapshotFolder: string, keyspace: string, tables: seq<SnapshotTable>)
    returns (r: Outcome)
    modifies disk
    ensures (r, disk.State()) == RestoreTables(old(disk.State()), store.objects, list, findPath, snapshotFolder, keyspace, tables)
  {
    for j := 0 to |tables|
      invariant RestoreTables(old(disk.State()), store.objects, list, findPath, snapshotFolder, keyspace, tables)
             == RestoreTables(disk.State(), store.objects, list, findPath, snapshotFolder, keyspace, tables[j..])
    {
      assert tables[j..][0] == tables[j] && tables[j..][1..] == tables[j + 1..];
      var e := RestoreTableFiles(store, disk, list, findPath, snapshotFolder, keyspace, tables[j]);
      if e.Fail? {
        return e;
      }
    }
    return Pass;
  }

  /** DownloadSnapshot: find the source node of `dstNode`, index the keyspaces and tables of
      its snapshot, then download every table of the index into its local directory. */
  method DownloadSnapshot(store: S3, disk: LocalDisk, list: Lister, findUUID: UUIDFinder, findPath: PathFinder,
                          dstNode: string, snapshotID: string, mapping: PrepareMapping, skipTables: bool)
    returns (r: Outcome)
    modifies disk
    ensures DownloadPlan(list, findUUID, dstNode, snapshotID, mapping, skipTables).Err? ==>
      && r == Fail(DownloadPlan(list, findUUID, dstNode, snapshotID, mapping, skipTables).msg)
      && disk.State() == old(disk.State())
    ensures DownloadPlan(list, findUUID, dstNode, snapshotID, mapping, skipTables).Ok? ==>
      var plan := DownloadPlan(list, findUUID, dstNode, snapshotID, mapping, skipTables).value;
      (r, disk.State()) == RestoreIndex(old(disk.State()), store.objects, list, findPath, plan.0, plan.1)
  {
    var node := FindNode(mapping.nodes, dstNode);
    if node.None? {
      return Fail(NodeNotFound(dstNode));
    }
    var snapshotFolder := SnapshotFolder(snapshotID, node.value.source);
    var keyspaces := ListKeyspaces(list, snapshotFolder);
    if keyspaces.Err? {
      return Fail(keyspaces.msg);
    }
    var snapshotIndex := BuildIndex(list, snapshotFolder, keyspaces.value, findUUID, skipTables);
    if snapshotIndex.Err? {
      return Fail(snapshotIndex.msg);
    }
    var index := snapshotIndex.value;
    for i := 0 to |index|
      invariant RestoreIndex(old(disk.State()), store.objects, list, findPath, snapshotFolder, index)
             == RestoreIndex(disk.State(), store.objects, list, findPath, snapshotFolder, index[i..])
    {
      assert index[i..][0] == index[i] && index[i..][1..] == index[i + 1..];
      var e := RestoreKeyspace(store, disk, list, findPath, snapshotFolder, index[i].keyspace, index[i].tables);
      if e.Fail? {
        return e;
      }
    }
    return Pass;
  }
}
