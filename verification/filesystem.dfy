/** The read-only view of a directory tree the detector works on. Where the Go
    code calls os.Stat, os.ReadFile or os.Open, the model looks the path up in
    an immutable value; a miss is the "file absent" signal. */
module FileSystem {
  import opened Wrappers
  import opened Strings

  /** File contents by path, plus directories (possibly empty) that exist.
      Paths are relative to the scanned root and separated by '/'. */
  datatype FileTree = FileTree(files: map<string, string>, dirs: set<string>)

  /** filepath.Join for the clean relative paths the detector builds; an empty
      side disappears, so Join(dir, "") == dir. */
  function Join(a: string, b: string): string {
    if a == "" then b
    else if b == "" then a
    else a + "/" + b
  }

  /** os.Stat succeeds: a file, a directory, or a directory implied by a file
      or a directory below it. */
  predicate Exists(t: FileTree, p: string) {
    || p in t.files
    || p in t.dirs
    || (exists q | q in t.files :: HasPrefix(q, p + "/"))
    || (exists d | d in t.dirs :: HasPrefix(d, p + "/"))
  }

  /** os.ReadFile: only regular files can be read. */
  function ReadFile(t: FileTree, p: string): (r: Option<string>)
    ensures r.Some? <==> p in t.files
    ensures r.Some? ==> Exists(t, p) && r.value == t.files[p]
  {
    if p in t.files then Some(t.files[p]) else None
  }

  /** The text after the last '/' of `s`. */
  function LastSegment(s: string): (r: string)
    ensures '/' !in r
    ensures HasSuffix(s, r)
    ensures |r| < |s| ==> s[|s| - |r| - 1] == '/'
  {
    if s == [] || s[|s| - 1] == '/' then []
    else
      var init := s[..|s| - 1];
      var last := s[|s| - 1];
      var rest := LastSegment(init);
      var r := rest + [last];
      assert s == init + [last];
      assert s[|s| - |r|..] == init[|init| - |rest|..] + [last];
      assert |r| < |s| ==> s[|s| - |r| - 1] == init[|init| - |rest| - 1];
      r
  }

  /** filepath.Base: the last element of a path, trailing slashes ignored;
      "." for the empty path and "/" for a path of slashes only. */
  function Base(path: string): (r: string)
    ensures r != ""
    ensures r == "/" || '/' !in r
    ensures path != "" && '/' !in path ==> r == path
  {
    if path == "" then "."
    else
      var stripped := TrimRight(path, {'/'});
      if stripped == "" then "/"
      else LastSegment(stripped)
  }

  /** The project name of `dir/name` is `name`. */
  lemma BaseOfJoin(dir: string, name: string)
    requires name != "" && '/' !in name
    ensures Base(Join(dir, name)) == name
  {
    var p := Join(dir, name);
    assert TrimRight(p, {'/'}) == p;
    if dir != "" {
      assert p[..|p| - 1] == dir + "/" + name[..|name| - 1];
      LastSegmentAfterSlash(dir, name);
    }
  }

  lemma {:induction false} LastSegmentAfterSlash(dir: string, name: string)
    requires '/' !in name
    ensures LastSegment(dir + "/" + name) == name
    decreases |name|
  {
    var s := dir + "/" + name;
    if name == [] {
      assert s[|s| - 1] == '/';
    } else {
      var shorter := name[..|name| - 1];
      assert s[..|s| - 1] == dir + "/" + shorter;
      LastSegmentAfterSlash(dir, shorter);
      assert shorter + [name[|name| - 1]] == name;
    }
  }
}
