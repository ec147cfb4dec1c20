/** The lenient, line-oriented `package.json` dependency scanner of the
    detector (parseDependencies) and its prefix-based lookup (hasDep). */
module Manifest {
  import opened Wrappers
  import opened Strings

  /** Declared dependency name to version text. */
  type Deps = map<string, string>

  /** A line that opens a dependency section. */
  predicate IsSectionHeader(t: string) {
    || HasPrefix(t, "\"dependencies\":")
    || HasPrefix(t, "'dependencies':")
    || HasPrefix(t, "\"devDependencies\":")
    || HasPrefix(t, "'devDependencies':")
  }

  /** A line that closes an open dependency section. */
  predicate IsSectionEnd(t: string) {
    HasPrefix(t, "}") || HasPrefix(t, "]")
  }

  /** The manifest's lines as the scanner sees them: split at '\n', then
      trimmed of surrounding white space. */
  function ScannedLines(content: string): (ts: seq<string>)
    ensures |ts| == |Split(content, '\n')|
    ensures forall i :: 0 <= i < |ts| ==> ts[i] == TrimSpace(Split(content, '\n')[i])
  {
    var lines := Split(content, '\n');
    seq(|lines|, i requires 0 <= i < |lines| => TrimSpace(lines[i]))
  }

  /** The name and version an in-section line records: the text before the
      first ':' trimmed of white space and quotes, and the text after it
      trimmed of white space, quotes and commas. No entry without a ':' or
      with an empty name. */
  function Entry(t: string): (r: Option<(string, string)>)
    ensures r.Some? ==> r.value.0 != "" && ':' in t
  {
    match Cut(t, ':')
    case None => None
    case Some((before, after)) =>
      var name := Trim(TrimSpace(before), {'"', '\''});
      if name == "" then None
      else Some((name, Trim(TrimSpace(after), {'"', '\'', ','})))
  }

  /** The scanning loop; `open` is whether a dependency section is open.
      A later line for the same name overwrites the earlier version. */
  function Scan(ts: seq<string>, open: bool, deps: Deps): Deps
    decreases |ts|
  {
    if ts == [] then deps
    else if IsSectionHeader(ts[0]) then Scan(ts[1..], true, deps)
    else
      var stillOpen := open && !IsSectionEnd(ts[0]);
      var entry := Entry(ts[0]);
      var deps' := if stillOpen && entry.Some? then deps[entry.value.0 := entry.value.1] else deps;
      Scan(ts[1..], stillOpen, deps')
  }

  /** parseDependencies: never records an empty name. */
  function ParseDependencies(content: string): (deps: Deps)
    ensures forall n :: n in deps ==> n != ""
  {
    var deps := Scan(ScannedLines(content), false, map[]);
    assert forall n :: n in deps ==> n != "" by {
      var ks := Kinds(content);
      ScanIsRecorded(content);
      forall n | n in deps
        ensures n != ""
      {
        RecordedUpToKeys(ks, |ks|, n);
      }
    }
    deps
  }

  // ---------------------------------------------------------------------
  // An independent description of what the scanner records.

  /** What one trimmed line is to the scanner. */
  datatype LineKind = Header | End | Other(entry: Option<(string, string)>)

  function Classify(t: string): LineKind {
    if IsSectionHeader(t) then Header
    else if IsSectionEnd(t) then End
    else Other(Entry(t))
  }

  /** The kinds of the manifest's scanned lines. */
  function Kinds(content: string): (ks: seq<LineKind>)
    ensures |ks| == |ScannedLines(content)|
    ensures forall i :: 0 <= i < |ks| ==> ks[i] == Classify(ScannedLines(content)[i])
  {
    var ts := ScannedLines(content);
    seq(|ts|, i requires 0 <= i < |ts| => Classify(ts[i]))
  }

  /** No line strictly between `j` and `i` closes a section. */
  ghost predicate NoEndBetween(ks: seq<LineKind>, j: int, i: int) {
    forall k :: j < k < i && 0 <= k < |ks| ==> !ks[k].End?
  }

  /** Line `i` lies in an open section: some earlier line opened one and no
      line since then closed it. */
  ghost predicate OpenBefore(ks: seq<LineKind>, i: int) {
    exists j :: 0 <= j < i && j < |ks| && ks[j].Header? && NoEndBetween(ks, j, i)
  }

  /** Line `i` is recorded under `name`: it lies in an open section and holds
      a `name: value` entry (so it neither opens nor closes a section). */
  ghost predicate RecordsName(ks: seq<LineKind>, i: int, name: string) {
    && 0 <= i < |ks|
    && OpenBefore(ks, i)
    && ks[i].Other? && ks[i].entry.Some?
    && ks[i].entry.value.0 == name
  }

  /** Whether a section is open after the first `n` lines, one line at a time. */
  ghost predicate OpenAfter(ks: seq<LineKind>, n: nat)
    requires n <= |ks|
  {
    if n == 0 then false
    else ks[n - 1].Header? || (OpenAfter(ks, n - 1) && !ks[n - 1].End?)
  }

  ghost predicate Recorded(ks: seq<LineKind>, i: nat)
    requires i < |ks|
  {
    OpenAfter(ks, i) && ks[i].Other? && ks[i].entry.Some?
  }

  /** The entries of the first `n` lines, one line at a time. */
  ghost function RecordedUpTo(ks: seq<LineKind>, n: nat): Deps
    requires n <= |ks|
  {
    if n == 0 then map[]
    else
      var m := RecordedUpTo(ks, n - 1);
      if Recorded(ks, n - 1) then m[ks[n - 1].entry.value.0 := ks[n - 1].entry.value.1] else m
  }

  lemma OpenStep(ks: seq<LineKind>, i: nat)
    requires i < |ks|
    ensures OpenBefore(ks, i + 1) <==> ks[i].Header? || (OpenBefore(ks, i) && !ks[i].End?)
  {
    if ks[i].Header? {
      assert NoEndBetween(ks, i, i + 1);
    } else if OpenBefore(ks, i) && !ks[i].End? {
      var j :| 0 <= j < i && ks[j].Header? && NoEndBetween(ks, j, i);
      assert NoEndBetween(ks, j, i + 1);
    }
    if OpenBefore(ks, i + 1) && !ks[i].Header? {
      var j :| 0 <= j < i + 1 && j < |ks| && ks[j].Header? && NoEndBetween(ks, j, i + 1);
      assert j < i;
      assert NoEndBetween(ks, j, i);
    }
  }

  lemma {:induction false} OpenAfterSpec(ks: seq<LineKind>, n: nat)
    requires n <= |ks|
    ensures OpenAfter(ks, n) <==> OpenBefore(ks, n)
  {
    if n > 0 {
      OpenAfterSpec(ks, n - 1);
      OpenStep(ks, n - 1);
    }
  }

  lemma {:induction false} ScanFrom(ts: seq<string>, ks: seq<LineKind>, n: nat)
    requires |ks| == |ts| && n <= |ts|
    requires forall i :: 0 <= i < |ts| ==> ks[i] == Classify(ts[i])
    ensures Scan(ts[n..], OpenAfter(ks, n), RecordedUpTo(ks, n)) == RecordedUpTo(ks, |ks|)
    decreases |ts| - n
  {
    if n < |ts| {
      var rest := ts[n..];
      assert rest[0] == ts[n] && rest[1..] == ts[n + 1..];
      assert ks[n] == Classify(ts[n]);
      ScanFrom(ts, ks, n + 1);
    }
  }

  lemma {:induction false} RecordedUpToKeys(ks: seq<LineKind>, n: nat, name: string)
    requires n <= |ks|
    ensures name in RecordedUpTo(ks, n) <==> exists i :: 0 <= i < n && RecordsName(ks, i, name)
  {
    if n > 0 {
      RecordedUpToKeys(ks, n - 1, name);
      OpenAfterSpec(ks, n - 1);
      if RecordsName(ks, n - 1, name) {
        assert name in RecordedUpTo(ks, n);
      } else {
        assert name in RecordedUpTo(ks, n) <==> name in RecordedUpTo(ks, n - 1);
      }
    }
  }

  lemma {:induction false} RecordedUpToLast(ks: seq<LineKind>, n: nat, name: string)
    requires n <= |ks|
    requires name in RecordedUpTo(ks, n)
    ensures exists i :: 0 <= i < n && RecordsName(ks, i, name)
                        && ks[i].entry.value.1 == RecordedUpTo(ks, n)[name]
                        && forall k :: i < k < n ==> !RecordsName(ks, k, name)
  {
    OpenAfterSpec(ks, n - 1);
    if RecordsName(ks, n - 1, name) {
      assert ks[n - 1].entry.value.1 == RecordedUpTo(ks, n)[name];
    } else {
      RecordedUpToLast(ks, n - 1, name);
      var i :| 0 <= i < n - 1 && RecordsName(ks, i, name)
               && ks[i].entry.value.1 == RecordedUpTo(ks, n - 1)[name]
               && forall k :: i < k < n - 1 ==> !RecordsName(ks, k, name);
      assert forall k :: i < k < n ==> !RecordsName(ks, k, name);
    }
  }

  /** The scan computes the line-by-line description. */
  lemma ScanIsRecorded(content: string)
    ensures Scan(ScannedLines(content), false, map[]) == RecordedUpTo(Kinds(content), |Kinds(content)|)
  {
    var ts := ScannedLines(content);
    assert ts[0..] == ts;
    ScanFrom(ts, Kinds(content), 0);
  }

  /** What parseDependencies records: exactly the names of the lines that
      lie in an open `dependencies`/`devDependencies` section, do not open or
      close one, and hold a `name: value` entry; each name maps to the version
      of its last such line. */
  lemma ParseDependenciesSpec(content: string, name: string)
    ensures var ks := Kinds(content);
            name in ParseDependencies(content) <==> exists i :: 0 <= i < |ks| && RecordsName(ks, i, name)
    ensures var ks := Kinds(content);
            var deps := ParseDependencies(content);
            name in deps ==>
              exists i :: 0 <= i < |ks| && RecordsName(ks, i, name)
                          && ks[i].entry.value.1 == deps[name]
                          && forall k :: i < k < |ks| ==> !RecordsName(ks, k, name)
  {
    var ks := Kinds(content);
    ScanIsRecorded(content);
    RecordedUpToKeys(ks, |ks|, name);
    if name in ParseDependencies(content) {
      RecordedUpToLast(ks, |ks|, name);
    }
  }

  /** A manifest without any section header declares nothing. */
  lemma NoHeaderNoDeps(content: string)
    requires forall i :: 0 <= i < |ScannedLines(content)| ==> !IsSectionHeader(ScannedLines(content)[i])
    ensures ParseDependencies(content) == map[]
  {
    forall name
      ensures name !in ParseDependencies(content)
    {
      ParseDependenciesSpec(content, name);
    }
  }

  // ---------------------------------------------------------------------
  // Lookup

  /** hasDep: an exact key, or any key that starts with `name`. The exact
      match is the special case of a key that is its own prefix, so the result
      is the prefix test alone. */
  function HasDep(deps: Deps, name: string): (r: bool)
    ensures r <==> exists dep :: dep in deps && HasPrefix(dep, name)
  {
    if name in deps then
      assert HasPrefix(name, name);
      true
    else exists dep | dep in deps :: HasPrefix(dep, name)
  }

  /** Any of several dependency names (Go's chains of `||`). */
  predicate HasAnyDep(deps: Deps, names: seq<string>) {
    exists i :: 0 <= i < |names| && HasDep(deps, names[i])
  }

  /** A dependency that matches a longer name also matches each of its
      prefixes: `react-dom` present implies `react` present. */
  lemma HasDepShorter(deps: Deps, longer: string, shorter: string)
    requires HasPrefix(longer, shorter)
    requires HasDep(deps, longer)
    ensures HasDep(deps, shorter)
  {
    var dep :| dep in deps && HasPrefix(dep, longer);
    PrefixTransitive(dep, longer, shorter);
  }
}
