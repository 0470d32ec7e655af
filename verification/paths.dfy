/** Go's path/filepath on a Unix system — Join, Clean and Dir on slash-separated strings — and
    the segment view of the paths the core builds: a path made of non-empty segments without
    slashes, "." or ".." is one that filepath.Join leaves exactly as written. */
module Paths {
  import opened Strings

  /** The tail of the error text of a stat or open of a path that does not exist. */
  const NoSuchFile: string := ": no such file or directory"

  /** A segment that filepath.Join keeps untouched. */
  predicate ValidSegment(x: string) {
    x != "" && '/' !in x && x != "." && x != ".."
  }

  predicate ValidSegments(p: seq<string>) {
    forall i :: 0 <= i < |p| ==> ValidSegment(p[i])
  }

  /** Segments written out with single slashes between them. */
  function Slashed(p: seq<string>): string {
    JoinWith(p, "/")
  }

  /** The lexical rules of filepath.Clean, one segment at a time: empty and "." segments vanish;
      ".." removes the segment before it, vanishes at the root, and stays at the front of a
      relative path that has nothing left to remove. */
  function CleanSegments(out: seq<string>, rest: seq<string>, rooted: bool): seq<string>
    decreases |rest|
  {
    if rest == [] then out
    else
      var x := rest[0];
      if x == "" || x == "." then CleanSegments(out, rest[1..], rooted)
      else if x == ".." then
        if |out| > 0 && out[|out| - 1] != ".." then CleanSegments(out[..|out| - 1], rest[1..], rooted)
        else if rooted then CleanSegments(out, rest[1..], rooted)
        else CleanSegments(out + [x], rest[1..], rooted)
      else CleanSegments(out + [x], rest[1..], rooted)
  }

  /** filepath.Clean. */
  function Clean(path: string): string {
    if path == "" then "."
    else
      var rooted := path[0] == '/';
      var segs := CleanSegments([], SplitOn(path, '/'), rooted);
      if rooted then "/" + Slashed(segs)
      else if segs == [] then "."
      else Slashed(segs)
  }

  /** filepath.Join: the elements from the first non-empty one on, joined by slashes and
      cleaned; "" when every element is empty. */
  function FilepathJoin(elems: seq<string>): string
    decreases |elems|
  {
    if elems == [] then ""
    else if elems[0] == "" then FilepathJoin(elems[1..])
    else Clean(JoinWith(elems, "/"))
  }

  /** The length of the part of `path` up to and including its last slash (0 without one). */
  function UpToLastSlash(path: string): (k: nat)
    ensures k <= |path|
    ensures k > 0 ==> path[k - 1] == '/'
    ensures forall i :: k <= i < |path| ==> path[i] != '/'
  {
    if path == [] then 0
    else if path[|path| - 1] == '/' then |path|
    else UpToLastSlash(path[..|path| - 1])
  }

  /** filepath.Dir: everything up to the last slash, cleaned. */
  function Dir(path: string): string {
    Clean(path[..UpToLastSlash(path)])
  }

  /** Cleaning passes valid segments through unchanged. */
  lemma {:induction false} CleanSegmentsKeepsValid(out: seq<string>, v: seq<string>, rest: seq<string>, rooted: bool)
    requires ValidSegments(v)
    ensures CleanSegments(out, v + rest, rooted) == CleanSegments(out + v, rest, rooted)
    decreases |v|
  {
    if v != [] {
      assert (v + rest)[0] == v[0];
      assert (v + rest)[1..] == v[1..] + rest;
      CleanSegmentsKeepsValid(out + [v[0]], v[1..], rest, rooted);
      assert out + [v[0]] + v[1..] == out + v;
    } else {
      assert v + rest == rest;
      assert out + v == out;
    }
  }

  lemma SlashedStartsWithFirst(p: seq<string>)
    requires |p| > 0
    ensures HasPrefix(Slashed(p), p[0])
  {
  }

  /** A relative path of valid segments is already clean. */
  lemma CleanSlashed(p: seq<string>)
    requires |p| > 0 && ValidSegments(p)
    ensures Clean(Slashed(p)) == Slashed(p)
  {
    SlashedStartsWithFirst(p);
    assert Slashed(p)[0] == p[0][0];
    SplitJoinRoundTrip(p, '/');
    CleanSegmentsKeepsValid([], p, [], false);
    assert p + [] == p && [] + p == p;
  }

  /** An absolute path of valid segments is already clean. */
  lemma CleanRootedSlashed(p: seq<string>)
    requires ValidSegments(p)
    ensures Clean("/" + Slashed(p)) == "/" + Slashed(p)
  {
    var path := "/" + Slashed(p);
    assert path[1..] == Slashed(p);
    if p == [] {
      assert path == "/";
      assert SplitOn(path, '/') == ["", ""];
      assert CleanSegments([], ["", ""], true) == CleanSegments([], [""], true) == [];
    } else {
      SplitJoinRoundTrip(p, '/');
      assert SplitOn(path, '/') == [""] + p;
      CleanSegmentsKeepsValid([], p, [], true);
      assert p + [] == p && [] + p == p;
    }
  }

  /** filepath.Join of valid segments is the segments with slashes between them. */
  lemma FilepathJoinValid(p: seq<string>)
    requires |p| > 0 && ValidSegments(p)
    ensures FilepathJoin(p) == Slashed(p)
  {
    CleanSlashed(p);
  }

  /** filepath.Join of valid segments followed by a relative path of valid segments. */
  lemma FilepathJoinNested(prefix: seq<string>, rel: seq<string>)
    requires |prefix| > 0 && |rel| > 0
    requires ValidSegments(prefix) && ValidSegments(rel)
    ensures FilepathJoin(prefix + [Slashed(rel)]) == Slashed(prefix + rel)
  {
    JoinWithAppend(prefix, [Slashed(rel)], "/");
    JoinWithAppend(prefix, rel, "/");
    assert ValidSegments(prefix + rel);
    CleanSlashed(prefix + rel);
  }

  /** filepath.Join of two relative paths of valid segments. */
  lemma FilepathJoinRelative(ds: seq<string>, rel: seq<string>)
    requires |ds| > 0 && |rel| > 0
    requires ValidSegments(ds) && ValidSegments(rel)
    ensures FilepathJoin([Slashed(ds), Slashed(rel)]) == Slashed(ds + rel)
  {
    SlashedStartsWithFirst(ds);
    assert Slashed(ds) != "";
    JoinWithAppend(ds, rel, "/");
    assert JoinWith([Slashed(ds), Slashed(rel)], "/") == Slashed(ds + rel);
    assert ValidSegments(ds + rel);
    CleanSlashed(ds + rel);
  }

  /** filepath.Join of an absolute directory of valid segments and a relative path of valid
      segments. */
  lemma FilepathJoinUnder(ds: seq<string>, rel: seq<string>)
    requires |ds| > 0 && |rel| > 0
    requires ValidSegments(ds) && ValidSegments(rel)
    ensures FilepathJoin(["/" + Slashed(ds), Slashed(rel)]) == "/" + Slashed(ds + rel)
  {
    JoinWithAppend(ds, rel, "/");
    assert JoinWith(["/" + Slashed(ds), Slashed(rel)], "/") == "/" + Slashed(ds + rel);
    assert ValidSegments(ds + rel);
    CleanRootedSlashed(ds + rel);
  }

  lemma {:induction false} UpToLastSlashOf(a: string, f: string)
    requires '/' !in f
    ensures UpToLastSlash(a + "/" + f) == |a| + 1
    decreases |f|
  {
    var path := a + "/" + f;
    if f != [] {
      assert path[..|path| - 1] == a + "/" + f[..|f| - 1];
      assert path[|path| - 1] == f[|f| - 1];
      UpToLastSlashOf(a, f[..|f| - 1]);
    }
  }

  /** Cleaning an absolute directory written with a trailing slash drops the slash. */
  lemma CleanRootedTrailingSlash(ds: seq<string>)
    requires |ds| > 0 && ValidSegments(ds)
    ensures Clean("/" + Slashed(ds) + "/") == "/" + Slashed(ds)
  {
    var parts := [""] + ds + [""];
    JoinWithAppend([""] + ds, [""], "/");
    JoinWithAppend([""], ds, "/");
    assert "/" + Slashed(ds) + "/" == JoinWith(parts, "/");
    SplitJoinRoundTrip(parts, '/');
    assert parts[1..] == ds + [""];
    CleanSegmentsKeepsValid([], ds, [""], true);
    assert [] + ds == ds;
  }

  /** The directory of an absolute path of valid segments drops the last segment. */
  lemma DirOfRooted(ds: seq<string>, f: string)
    requires ValidSegments(ds) && ValidSegment(f)
    ensures Dir("/" + Slashed(ds + [f])) == "/" + Slashed(ds)
  {
    var a := if ds == [] then "" else "/" + Slashed(ds);
    if ds != [] {
      JoinWithAppend(ds, [f], "/");
    }
    assert "/" + Slashed(ds + [f]) == a + "/" + f;
    UpToLastSlashOf(a, f);
    assert (a + "/" + f)[..|a| + 1] == a + "/";
    if ds == [] {
      assert a + "/" == "/";
      assert SplitOn("/", '/') == ["", ""];
      assert CleanSegments([], ["", ""], true) == CleanSegments([], [""], true) == [];
    } else {
      CleanRootedTrailingSlash(ds);
    }
  }
  /** An empty segment between valid segments is dropped by cleaning. */
  lemma CleanSegmentsDropsEmpty(ds: seq<string>, rel: seq<string>)
    requires ValidSegments(ds) && ValidSegments(rel)
    ensures CleanSegments([], ds + [""] + rel, false) == ds + rel
  {
    assert ds + [""] + rel == ds + ([""] + rel);
    CleanSegmentsKeepsValid([], ds, [""] + rel, false);
    assert ([""] + rel)[1..] == rel;
    assert rel == rel + [];
    CleanSegmentsKeepsValid([] + ds, rel, [], false);
    assert [] + ds == ds;
  }

  /** Cleaning a relative path given as its pieces. */
  lemma CleanOfPieces(parts: seq<string>, out: seq<string>)
    requires |parts| > 0 && parts[0] != "" && out != []
    requires forall i :: 0 <= i < |parts| ==> '/' !in parts[i]
    requires CleanSegments([], parts, false) == out
    ensures Clean(JoinWith(parts, "/")) == Slashed(out)
  {
    SlashedStartsWithFirst(parts);
    assert JoinWith(parts, "/")[0] == parts[0][0];
    SplitJoinRoundTrip(parts, '/');
  }

  /** The pieces of a directory with a trailing slash followed by more segments. */
  lemma JoinAfterSlashPieces(ds: seq<string>, rel: seq<string>)
    requires |ds| > 0 && |rel| > 0
    ensures JoinWith([Slashed(ds) + "/"] + rel, "/") == JoinWith(ds + [""] + rel, "/")
  {
    var y := Slashed(ds) + "/";
    var r := JoinWith(rel, "/");
    JoinWithAppend([y], rel, "/");
    assert JoinWith([y], "/") == y;
    assert JoinWith([y] + rel, "/") == y + "/" + r;
    JoinWithAppend(ds, [""], "/");
    assert JoinWith([""], "/") == "";
    assert JoinWith(ds + [""], "/") == y;
    JoinWithAppend(ds + [""], rel, "/");
  }

  lemma FilepathJoinNonEmptyFirst(elems: seq<string>)
    requires |elems| > 0 && elems[0] != ""
    ensures FilepathJoin(elems) == Clean(JoinWith(elems, "/"))
  {
  }

  lemma PiecesAvoidSlash(ds: seq<string>, rel: seq<string>)
    requires ValidSegments(ds) && ValidSegments(rel)
    ensures forall i :: 0 <= i < |ds + [""] + rel| ==> '/' !in (ds + [""] + rel)[i]
  {
    var parts := ds + [""] + rel;
    forall i | 0 <= i < |parts|
      ensures '/' !in parts[i]
    {
      if i < |ds| {
        assert parts[i] == ds[i];
      } else if i > |ds| {
        assert parts[i] == rel[i - |ds| - 1];
      }
    }
  }

  lemma ValidConcat(a: seq<string>, b: seq<string>)
    requires ValidSegments(a) && ValidSegments(b)
    ensures ValidSegments(a + b)
  {
    forall i | 0 <= i < |a + b|
      ensures ValidSegment((a + b)[i])
    {
      if i >= |a| {
        assert (a + b)[i] == b[i - |a|];
      }
    }
  }

  /** filepath.Join of a relative path of valid segments followed by more valid segments. */
  lemma FilepathJoinLeading(ds: seq<string>, rest: seq<string>)
    requires |ds| > 0 && |rest| > 0
    requires ValidSegments(ds) && ValidSegments(rest)
    ensures FilepathJoin([Slashed(ds)] + rest) == Slashed(ds + rest)
  {
    var x := Slashed(ds);
    assert x != "" by {
      SlashedStartsWithFirst(ds);
    }
    FilepathJoinNonEmptyFirst([x] + rest);
    assert JoinWith([x] + rest, "/") == JoinWith(ds + rest, "/") by {
      JoinWithAppend([x], rest, "/");
      assert JoinWith([x], "/") == x;
      JoinWithAppend(ds, rest, "/");
    }
    ValidConcat(ds, rest);
    CleanSlashed(ds + rest);
  }

  lemma SlashedPair(a: string, b: string)
    ensures Slashed([a, b]) == a + "/" + b
  {
    assert [a, b][0] == a && [a, b][1..] == [b];
    assert JoinWith([b], "/") == b;
    assert JoinWith([a, b], "/") == a + "/" + JoinWith([b], "/");
  }

  /** filepath.Join below a directory written with a trailing slash: the directory, its slash,
      and the segments. */
  lemma FilepathJoinBelow(ds: seq<string>, rel: seq<string>)
    requires |ds| > 0 && |rel| > 0
    requires ValidSegments(ds) && ValidSegments(rel)
    ensures FilepathJoin([Slashed(ds) + "/"] + rel) == Slashed(ds) + "/" + Slashed(rel)
  {
    FilepathJoinAfterSlash(ds, rel);
    JoinWithAppend(ds, rel, "/");
  }

  /** filepath.Join of a relative directory written with a trailing slash and further valid
      segments: the doubled slash vanishes. */
  lemma FilepathJoinAfterSlash(ds: seq<string>, rel: seq<string>)
    requires |ds| > 0 && |rel| > 0
    requires ValidSegments(ds) && ValidSegments(rel)
    ensures FilepathJoin([Slashed(ds) + "/"] + rel) == Slashed(ds + rel)
  {
    var parts := ds + [""] + rel;
    FilepathJoinNonEmptyFirst([Slashed(ds) + "/"] + rel);
    JoinAfterSlashPieces(ds, rel);
    PiecesAvoidSlash(ds, rel);
    CleanSegmentsDropsEmpty(ds, rel);
    assert parts[0] == ds[0];
    CleanOfPieces(parts, ds + rel);
  }
}
