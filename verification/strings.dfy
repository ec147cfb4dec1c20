/** The parts of Go's `strings` and `bytes` packages the CLI relies on, over
    `string` (a `seq<char>`; each character stands for one byte of ASCII text). */
module Strings {
  import opened Wrappers

  /** strings.HasPrefix */
  predicate HasPrefix(s: string, p: string) {
    |p| <= |s| && s[..|p|] == p
  }

  /** strings.HasSuffix */
  predicate HasSuffix(s: string, p: string) {
    |p| <= |s| && s[|s| - |p|..] == p
  }

  /** `p` occurs in `s` starting at index `i`. */
  predicate OccursAt(s: string, p: string, i: int) {
    0 <= i && i + |p| <= |s| && s[i..i + |p|] == p
  }

  /** strings.Contains */
  predicate Contains(s: string, p: string) {
    exists i | 0 <= i <= |s| - |p| :: OccursAt(s, p, i)
  }

  lemma ContainsItself(p: string)
    ensures Contains(p, p)
  {
    assert OccursAt(p, p, 0);
  }

  lemma ContainsInLeft(a: string, b: string, p: string)
    requires Contains(a, p)
    ensures Contains(a + b, p)
  {
    var i :| 0 <= i <= |a| - |p| && OccursAt(a, p, i);
    assert (a + b)[i..i + |p|] == a[i..i + |p|];
    assert OccursAt(a + b, p, i);
  }

  lemma ContainsInRight(a: string, b: string, p: string)
    requires Contains(b, p)
    ensures Contains(a + b, p)
  {
    var i :| 0 <= i <= |b| - |p| && OccursAt(b, p, i);
    assert (a + b)[|a| + i..|a| + i + |p|] == b[i..i + |p|];
    assert OccursAt(a + b, p, |a| + i);
  }

  /** Containment is transitive. */
  lemma ContainsTransitive(s: string, m: string, p: string)
    requires Contains(s, m) && Contains(m, p)
    ensures Contains(s, p)
  {
    var i :| 0 <= i <= |s| - |m| && OccursAt(s, m, i);
    var j :| 0 <= j <= |m| - |p| && OccursAt(m, p, j);
    assert s[i + j..i + j + |p|] == p by {
      forall k | 0 <= k < |p|
        ensures s[i + j + k] == p[k]
      {
        assert s[i..i + |m|][j + k] == m[j + k];
        assert m[j..j + |p|][k] == p[k];
      }
    }
    assert OccursAt(s, p, i + j);
  }

  lemma PrefixTransitive(s: string, p: string, q: string)
    requires HasPrefix(s, p) && HasPrefix(p, q)
    ensures HasPrefix(s, q)
  {
    assert s[..|q|] == s[..|p|][..|q|];
  }

  /** The least index at or after `k` where `p` occurs in `s`. */
  function IndexFrom(s: string, p: string, k: nat): (r: Option<nat>)
    requires k <= |s|
    decreases |s| - k
    ensures r.Some? ==> k <= r.value && OccursAt(s, p, r.value)
    ensures r.Some? ==> forall j :: k <= j < r.value ==> !OccursAt(s, p, j)
    ensures r.None? ==> forall j :: k <= j ==> !OccursAt(s, p, j)
  {
    if k + |p| > |s| then None
    else if s[k..k + |p|] == p then Some(k)
    else IndexFrom(s, p, k + 1)
  }

  /** strings.Index, with "not found" as None: the first occurrence of `p`. */
  function IndexOf(s: string, p: string): (r: Option<nat>)
    ensures r.Some? <==> Contains(s, p)
    ensures r.Some? ==> OccursAt(s, p, r.value)
    ensures r.Some? ==> forall j :: 0 <= j < r.value ==> !OccursAt(s, p, j)
  {
    IndexFrom(s, p, 0)
  }

  /** The first index of character `c` in `s`. */
  function FindChar(s: string, c: char): (r: Option<nat>)
    ensures r.Some? ==> r.value < |s| && s[r.value] == c && c !in s[..r.value]
    ensures r.None? <==> c !in s
  {
    if s == [] then None
    else if s[0] == c then Some(0)
    else
      match FindChar(s[1..], c)
      case None => None
      case Some(i) =>
        assert s[..i + 1] == [s[0]] + s[1..][..i];
        Some(i + 1)
  }

  /** strings.SplitN(s, [c], 2): the text before and after the first `c`,
      or None when `c` does not occur (Go returns a single part then). */
  function Cut(s: string, c: char): (r: Option<(string, string)>)
    ensures r.Some? <==> c in s
    ensures r.Some? ==> s == r.value.0 + [c] + r.value.1 && c !in r.value.0
  {
    match FindChar(s, c)
    case None => None
    case Some(i) =>
      assert s == s[..i] + [c] + s[i + 1..];
      Some((s[..i], s[i + 1..]))
  }

  /** bytes.Split / strings.Split on a one-character separator. */
  function Split(s: string, c: char): (parts: seq<string>)
    decreases |s|
    ensures |parts| >= 1
    ensures forall i :: 0 <= i < |parts| ==> c !in parts[i]
  {
    match Cut(s, c)
    case None => [s]
    case Some((before, after)) => [before] + Split(after, c)
  }

  /** strings.Join on a one-character separator. */
  function JoinWith(parts: seq<string>, c: char): string {
    if |parts| == 0 then ""
    else if |parts| == 1 then parts[0]
    else parts[0] + [c] + JoinWith(parts[1..], c)
  }

  /** Splitting loses nothing: joining the parts back gives the input. */
  lemma {:induction false} JoinSplit(s: string, c: char)
    ensures JoinWith(Split(s, c), c) == s
    decreases |s|
  {
    match Cut(s, c)
    case None =>
    case Some((before, after)) =>
      JoinSplit(after, c);
      var rest := Split(after, c);
      assert Split(s, c) == [before] + rest;
      assert ([before] + rest)[1..] == rest;
  }

  /** Cutting at the first separator of `a + [c] + b` gives back `a` and `b`
      when `a` has no separator. */
  lemma CutAtFirst(a: string, c: char, b: string)
    requires c !in a
    ensures Cut(a + [c] + b, c) == Some((a, b))
  {
    var s := a + [c] + b;
    assert s[|a|] == c;
    assert FindChar(s, c).value == |a|;
    assert s[..|a|] == a && s[|a| + 1..] == b;
  }

  /** Joining parts free of the separator and splitting again gives the parts. */
  lemma {:induction false} SplitJoin(parts: seq<string>, c: char)
    requires |parts| >= 1
    requires forall i :: 0 <= i < |parts| ==> c !in parts[i]
    ensures Split(JoinWith(parts, c), c) == parts
    decreases |parts|
  {
    if |parts| > 1 {
      var rest := JoinWith(parts[1..], c);
      SplitJoin(parts[1..], c);
      CutAtFirst(parts[0], c, rest);
      assert parts == [parts[0]] + parts[1..];
    } else {
      assert Cut(parts[0], c).None?;
    }
  }

  /** strings.TrimLeft with a cut set. */
  function TrimLeft(s: string, cut: set<char>): (r: string)
    ensures HasSuffix(s, r)
    ensures r == [] || r[0] !in cut
    ensures forall i :: 0 <= i < |s| - |r| ==> s[i] in cut
  {
    if s != [] && s[0] in cut then
      var r := TrimLeft(s[1..], cut);
      assert s[|s| - |r|..] == s[1..][|s| - 1 - |r|..];
      r
    else s
  }

  /** strings.TrimRight with a cut set. */
  function TrimRight(s: string, cut: set<char>): (r: string)
    ensures HasPrefix(s, r)
    ensures r == [] || r[|r| - 1] !in cut
    ensures forall i :: |r| <= i < |s| ==> s[i] in cut
  {
    if s != [] && s[|s| - 1] in cut then
      var r := TrimRight(s[..|s| - 1], cut);
      assert s[..|r|] == s[..|s| - 1][..|r|];
      r
    else s
  }

  /** `r` is the slice of `s` at index `i`, and everything outside it is in `cut`. */
  predicate TrimmedAt(s: string, r: string, cut: set<char>, i: int) {
    && 0 <= i <= |s| - |r|
    && s[i..i + |r|] == r
    && (forall j :: 0 <= j < i ==> s[j] in cut)
    && (forall j :: i + |r| <= j < |s| ==> s[j] in cut)
  }

  /** strings.Trim with a cut set: the result is a slice of `s` whose ends are
      not in the set, and everything cut off is in the set. */
  function Trim(s: string, cut: set<char>): (r: string)
    ensures r == [] || (r[0] !in cut && r[|r| - 1] !in cut)
    ensures exists i :: TrimmedAt(s, r, cut, i)
  {
    var left := TrimLeft(s, cut);
    var r := TrimRight(left, cut);
    var i := |s| - |left|;
    assert left == s[i..];
    assert r == left[..|r|];
    assert s[i..i + |r|] == r by {
      assert s[i..i + |r|] == s[i..][..|r|];
    }
    forall j | i + |r| <= j < |s|
      ensures s[j] in cut
    {
      assert s[j] == left[j - i];
    }
    assert r != [] ==> r[0] == left[0];
    assert TrimmedAt(s, r, cut, i);
    r
  }

  /** The ASCII white space that strings.TrimSpace removes. */
  const Whitespace: set<char> := {' ', '\t', '\n', '\r', 11 as char, 12 as char}

  /** strings.TrimSpace (ASCII white space). */
  function TrimSpace(s: string): string {
    Trim(s, Whitespace)
  }

  function LowerChar(c: char): char {
    if 'A' <= c <= 'Z' then (c as int + 32) as char else c
  }

  /** strings.ToLower (ASCII letters). */
  function ToLower(s: string): (r: string)
    ensures |r| == |s|
    ensures forall i :: 0 <= i < |s| ==> r[i] == LowerChar(s[i])
  {
    seq(|s|, i requires 0 <= i < |s| => LowerChar(s[i]))
  }

  /** strings.ReplaceAll(s, [c], ""): every `c` removed, all else kept in order. */
  function Without(s: string, c: char): (r: string)
    ensures c !in r
    ensures forall x :: x in r <==> x in s && x != c
  {
    if s == [] then []
    else (if s[0] == c then [] else [s[0]]) + Without(s[1..], c)
  }

  lemma WithoutAbsent(s: string, c: char)
    requires c !in s
    ensures Without(s, c) == s
  {
  }

  /** strings.TrimSuffix */
  function TrimSuffix(s: string, suffix: string): (r: string)
    ensures HasSuffix(s, suffix) ==> r + suffix == s
    ensures !HasSuffix(s, suffix) ==> r == s
  {
    if HasSuffix(s, suffix) then s[..|s| - |suffix|] else s
  }

  /** strings.Replace(s, old, new, 1): only the first occurrence is replaced. */
  function ReplaceFirst(s: string, pat: string, repl: string): (r: string)
    ensures !Contains(s, pat) ==> r == s
    ensures Contains(s, pat) ==>
              exists i :: OccursAt(s, pat, i) && (forall j :: 0 <= j < i ==> !OccursAt(s, pat, j))
                          && r == s[..i] + repl + s[i + |pat|..]
  {
    match IndexOf(s, pat)
    case None => s
    case Some(i) => s[..i] + repl + s[i + |pat|..]
  }
}
