/** The `Split` helper of pkg/snappy/strings.go, and the parts of Go's `strings` package
    (Index, SplitN, Split, Join, HasPrefix, TrimPrefix, TrimSuffix) that the core relies on. */
module Strings {
  import opened Results

  /** `sep` occurs in `s` starting at position `i`. */
  predicate OccursAt(s: string, sep: string, i: nat) {
    i + |sep| <= |s| && s[i..i + |sep|] == sep
  }

  predicate Contains(s: string, sep: string) {
    exists i: nat | i <= |s| :: OccursAt(s, sep, i)
  }

  /** `strings.Index` started at position `k`: the first occurrence of `sep` at or after `k`
      (IndexFromFirst states it). */
  function IndexFrom(s: string, sep: string, k: nat): (r: Option<nat>)
    ensures r.Some? ==> k <= r.value && r.value + |sep| <= |s|
    decreases |s| - k
  {
    if k + |sep| > |s| then None
    else if s[k..k + |sep|] == sep then Some(k)
    else IndexFrom(s, sep, k + 1)
  }

  /** IndexFrom finds an occurrence at or after `k`, and no earlier one; None means there is
      no occurrence at or after `k`. */
  lemma {:induction false} IndexFromFirst(s: string, sep: string, k: nat)
    ensures var r := IndexFrom(s, sep, k);
      r.Some? ==> k <= r.value && OccursAt(s, sep, r.value)
    ensures var r := IndexFrom(s, sep, k);
      r.Some? ==> forall j: nat :: k <= j < r.value ==> !OccursAt(s, sep, j)
    ensures IndexFrom(s, sep, k).None? ==> forall j: nat :: k <= j ==> !OccursAt(s, sep, j)
    decreases |s| - k
  {
    if k + |sep| <= |s| && s[k..k + |sep|] != sep {
      IndexFromFirst(s, sep, k + 1);
    }
  }

  /** `Split` (strings.go): `strings.SplitN(s, sep, 2)`, with an empty input giving `("", "")`
      and an input without the separator giving `(s, "")`. SplitN with an empty separator cuts
      after the first character. What the result means is stated by SplitCuts. */
  function Split(s: string, sep: string): (string, string) {
    if |s| == 0 then (s, s)
    else if sep == "" then (s[..1], s[1..])
    else
      match IndexFrom(s, sep, 0)
      case None => (s, "")
      case Some(i) => (s[..i], s[i + |sep|..])
  }

  /** Split cuts at the first occurrence of the separator, or keeps the whole text. */
  lemma SplitCuts(s: string, sep: string)
    ensures s == "" ==> Split(s, sep) == ("", "")
    ensures s != "" && sep == "" ==> Split(s, sep) == (s[..1], s[1..])
    ensures sep != "" && !Contains(s, sep) ==> Split(s, sep) == (s, "")
    ensures sep != "" && Contains(s, sep) ==>
      var r := Split(s, sep);
      && r.0 + sep + r.1 == s
      && !Contains(r.0, sep)
      && (forall j: nat :: j < |r.0| ==> !OccursAt(s, sep, j))
  {
    if |s| > 0 && sep != "" {
      IndexFromFirst(s, sep, 0);
      match IndexFrom(s, sep, 0)
      case None =>
      case Some(i) =>
        var a := s[..i];
        assert !Contains(a, sep) by {
          forall j: nat | OccursAt(a, sep, j) ensures false {
            assert s[j..j + |sep|] == a[j..j + |sep|];
            assert OccursAt(s, sep, j);
          }
        }
        assert a + sep + s[i + |sep|..] == s by {
          assert s == s[..i] + s[i..i + |sep|] + s[i + |sep|..];
        }
    }
  }

  /** Split undoes the joining of `a`, `sep` and `b` when no occurrence of `sep` starts inside `a`;
      `b` may hold further separators, since only the first occurrence splits. */
  lemma {:induction false} SplitOfJoined(a: string, sep: string, b: string)
    requires sep != ""
    requires forall j: nat :: j < |a| ==> !OccursAt(a + sep, sep, j)
    ensures Split(a + sep + b, sep) == (a, b)
  {
    var s := a + sep + b;
    assert OccursAt(s, sep, |a|) by {
      assert s[|a|..|a| + |sep|] == sep;
    }
    var r := Split(s, sep);
    SplitCuts(s, sep);
    forall j: nat | j < |a|
      ensures !OccursAt(s, sep, j)
    {
      assert s[j..j + |sep|] == (a + sep)[j..j + |sep|];
      assert !OccursAt(a + sep, sep, j);
    }
    assert Contains(s, sep);
    assert OccursAt(s, sep, |r.0|) by {
      assert s[|r.0|..|r.0| + |sep|] == sep;
    }
    assert |r.0| == |a|;
    assert r.0 == s[..|a|] && a == s[..|a|];
    assert r.1 == s[|a| + |sep|..] && b == s[|a| + |sep|..];
  }

  /** The case the core uses: a one-character separator absent from the first part. */
  lemma SplitAtChar(a: string, c: char, b: string)
    requires c !in a
    ensures Split(a + [c] + b, [c]) == (a, b)
  {
    forall j: nat | j < |a|
      ensures !OccursAt(a + [c], [c], j)
    {
      assert (a + [c])[j..j + 1] == [a[j]];
    }
    SplitOfJoined(a, [c], b);
  }

  /** A table folder name splits at its first dash only. */
  lemma SplitTableFolderExample()
    ensures Split("t1-ab-cd", "-") == ("t1", "ab-cd")
  {
    SplitAtChar("t1", '-', "ab-cd");
    assert "t1" + ['-'] + "ab-cd" == "t1-ab-cd";
  }

  predicate HasPrefix(s: string, p: string) {
    |p| <= |s| && s[..|p|] == p
  }

  predicate HasSuffix(s: string, p: string) {
    |p| <= |s| && s[|s| - |p|..] == p
  }

  /** `strings.TrimPrefix`. */
  function TrimPrefix(s: string, p: string): (r: string)
    ensures HasPrefix(s, p) ==> p + r == s
    ensures !HasPrefix(s, p) ==> r == s
  {
    if HasPrefix(s, p) then
      assert s == s[..|p|] + s[|p|..];
      s[|p|..]
    else s
  }

  /** `strings.TrimSuffix`. */
  function TrimSuffix(s: string, p: string): (r: string)
    ensures HasSuffix(s, p) ==> r + p == s
    ensures !HasSuffix(s, p) ==> r == s
  {
    if HasSuffix(s, p) then
      assert s == s[..|s| - |p|] + s[|s| - |p|..];
      s[..|s| - |p|]
    else s
  }

  /** `strings.Split` with a one-character separator: the pieces between the separators. */
  function SplitOn(s: string, c: char): (parts: seq<string>)
    ensures |parts| >= 1
    ensures forall i :: 0 <= i < |parts| ==> c !in parts[i]
    decreases |s|
  {
    if s == [] then [""]
    else
      var rest := SplitOn(s[1..], c);
      if s[0] == c then [""] + rest else [[s[0]] + rest[0]] + rest[1..]
  }

  /** `strings.Join`: the parts with `sep` between consecutive ones. */
  function JoinWith(parts: seq<string>, sep: string): string
  {
    if |parts| == 0 then ""
    else if |parts| == 1 then parts[0]
    else parts[0] + sep + JoinWith(parts[1..], sep)
  }

  /** Joining a concatenation puts one separator between the two joined halves. */
  lemma {:induction false} JoinWithAppend(p: seq<string>, q: seq<string>, sep: string)
    requires |p| > 0 && |q| > 0
    ensures JoinWith(p + q, sep) == JoinWith(p, sep) + sep + JoinWith(q, sep)
  {
    assert (p + q)[0] == p[0];
    if |p| == 1 {
      assert (p + q)[1..] == q;
    } else {
      JoinWithAppend(p[1..], q, sep);
      assert (p + q)[1..] == p[1..] + q;
    }
  }

  lemma {:induction false} SplitOnNoSeparator(a: string, c: char)
    requires c !in a
    ensures SplitOn(a, c) == [a]
  {
    if a != [] {
      SplitOnNoSeparator(a[1..], c);
      assert [a[0]] + a[1..] == a;
    }
  }

  lemma {:induction false} SplitOnFirstPiece(a: string, c: char, rest: string)
    requires c !in a
    ensures SplitOn(a + [c] + rest, c) == [a] + SplitOn(rest, c)
  {
    if a == [] {
      assert (a + [c] + rest)[1..] == rest;
    } else {
      SplitOnFirstPiece(a[1..], c, rest);
      assert (a + [c] + rest)[1..] == a[1..] + [c] + rest;
      assert [a[0]] + a[1..] == a;
    }
  }

  /** Splitting what was joined gives the parts back when no part holds the separator. */
  lemma {:induction false} SplitJoinRoundTrip(parts: seq<string>, c: char)
    requires |parts| > 0
    requires forall i :: 0 <= i < |parts| ==> c !in parts[i]
    ensures SplitOn(JoinWith(parts, [c]), c) == parts
  {
    if |parts| == 1 {
      SplitOnNoSeparator(parts[0], c);
    } else {
      SplitJoinRoundTrip(parts[1..], c);
      SplitOnFirstPiece(parts[0], c, JoinWith(parts[1..], [c]));
      assert [parts[0]] + parts[1..] == parts;
    }
  }

  /** Joining the pieces of a split gives the input back. */
  lemma {:induction false} JoinSplitRoundTrip(s: string, c: char)
    ensures JoinWith(SplitOn(s, c), [c]) == s
  {
    if s != [] {
      JoinSplitRoundTrip(s[1..], c);
      var rest := SplitOn(s[1..], c);
      if s[0] == c {
        assert ([""] + rest)[1..] == rest;
      } else if |rest| > 1 {
        assert ([[s[0]] + rest[0]] + rest[1..])[1..] == rest[1..];
      }
      assert s == [s[0]] + s[1..];
    }
  }

  /** Distinct piece lists without the separator join to distinct strings. */
  lemma JoinInjective(p: seq<string>, q: seq<string>, c: char)
    requires |p| > 0 && |q| > 0
    requires forall i :: 0 <= i < |p| ==> c !in p[i]
    requires forall i :: 0 <= i < |q| ==> c !in q[i]
    requires JoinWith(p, [c]) == JoinWith(q, [c])
    ensures p == q
  {
    SplitJoinRoundTrip(p, c);
    SplitJoinRoundTrip(q, c);
  }

  predicate IsDigit(c: char) {
    48 <= c as int <= 57
  }

  /** fmt's `%d` of a natural number: its decimal digits, most significant first. */
  function NatToDecimal(n: nat): (r: string)
    ensures |r| > 0
    ensures forall i :: 0 <= i < |r| ==> IsDigit(r[i])
  {
    if n < 10 then [(48 + n) as char]
    else NatToDecimal(n / 10) + [(48 + n % 10) as char]
  }

  /** fmt's `%d` of an integer. */
  function IntToDecimal(n: int): string {
    if n < 0 then "-" + NatToDecimal(-n) else NatToDecimal(n)
  }

  /** The number a string of decimal digits stands for. */
  function DecimalValue(s: string): nat
    requires forall i :: 0 <= i < |s| ==> IsDigit(s[i])
  {
    if s == [] then 0
    else
      assert IsDigit(s[|s| - 1]);
      10 * DecimalValue(s[..|s| - 1]) + (s[|s| - 1] as int - 48)
  }

  /** Printing a number in decimal loses nothing. */
  lemma {:induction false} DecimalRoundTrip(n: nat)
    ensures DecimalValue(NatToDecimal(n)) == n
  {
    if n >= 10 {
      DecimalRoundTrip(n / 10);
      var s := NatToDecimal(n);
      assert s[..|s| - 1] == NatToDecimal(n / 10);
    }
  }
}
