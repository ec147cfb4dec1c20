/** `version`: the version text with the build information the build
    supplied. The three values are set by the linker; here they are
    parameters. */
module Version {
  import opened Strings

  /** The value a build leaves in place of information it did not supply. */
  const Unknown := "unknown"

  const BuiltAtLabel := "Built at: "
  const CommitLabel := "Commit: "

  /** GetFullVersion: the version, then a build-time line and a commit line,
      each only when that value was supplied. */
  function FullVersion(version: string, buildTime: string, commit: string): (r: string)
    ensures HasPrefix(r, version)
    ensures buildTime == Unknown && commit == Unknown ==> r == version
    ensures commit != Unknown ==> HasSuffix(r, "\n" + CommitLabel + commit)
    ensures commit == Unknown && buildTime != Unknown ==> HasSuffix(r, "\n" + BuiltAtLabel + buildTime)
  {
    var withBuild := if buildTime != Unknown then version + "\n" + BuiltAtLabel + buildTime else version;
    var r := if commit != Unknown then withBuild + "\n" + CommitLabel + commit else withBuild;
    assert r[..|withBuild|] == withBuild;
    assert withBuild[..|version|] == version;
    assert r[..|version|] == withBuild[..|version|];
    r
  }

  /** The lines of the version text: the version, then the supplied values. */
  function VersionLines(version: string, buildTime: string, commit: string): (lines: seq<string>)
    ensures |lines| >= 1 && lines[0] == version
  {
    [version]
    + (if buildTime != Unknown then [BuiltAtLabel + buildTime] else [])
    + (if commit != Unknown then [CommitLabel + commit] else [])
  }

  /** The version text is its lines joined by newlines. */
  lemma FullVersionIsJoinedLines(version: string, buildTime: string, commit: string)
    ensures FullVersion(version, buildTime, commit) == JoinWith(VersionLines(version, buildTime, commit), '\n')
  {
    var lines := VersionLines(version, buildTime, commit);
    if buildTime != Unknown && commit != Unknown {
      var b := BuiltAtLabel + buildTime;
      var m := CommitLabel + commit;
      assert lines == [version, b, m] && lines[1..] == [b, m] && lines[1..][1..] == [m];
      assert JoinWith(lines[1..], '\n') == b + "\n" + m;
      assert JoinWith(lines, '\n') == version + "\n" + (b + "\n" + m);
    } else if buildTime != Unknown || commit != Unknown {
      assert lines[1..] == [lines[1]];
    }
  }

  /** When no value holds a newline, splitting the text at newlines gives one
      line per supplied value, in order: the build time before the commit. */
  lemma FullVersionSplits(version: string, buildTime: string, commit: string)
    requires '\n' !in version && '\n' !in buildTime && '\n' !in commit
    ensures Split(FullVersion(version, buildTime, commit), '\n') == VersionLines(version, buildTime, commit)
  {
    var lines := VersionLines(version, buildTime, commit);
    FullVersionIsJoinedLines(version, buildTime, commit);
    forall i | 0 <= i < |lines|
      ensures '\n' !in lines[i]
    {
      assert '\n' !in BuiltAtLabel && '\n' !in CommitLabel;
    }
    SplitJoin(lines, '\n');
  }
}
