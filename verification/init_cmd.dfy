/** `init`: choosing the API URL, the project configuration written into
    `.chrono/config.yaml`, recording installed skills in it, and adding the
    generated directories to `.gitignore`. The file operations themselves,
    skill downloads and the clock are parameters or left out. */
module InitCmd {
  import opened Wrappers
  import opened Strings
  import opened Configuration

  // ---------------------------------------------------------------------
  // API URL

  /** The `--api-url` flag, else the `CHRONO_API_URL` environment value, else
      the default configuration's server URL. The "API URL required" error
      is unreachable because that default is never empty. */
  function ResolveApiUrl(flag: string, env: string, homeDir: string): (r: Result<string, string>)
    ensures r.Success? && r.value != ""
    ensures flag != "" ==> r.value == flag
    ensures flag == "" && env != "" ==> r.value == env
    ensures flag == "" && env == "" ==> r.value == DefaultBaseURL
  {
    var fromFlags := if flag != "" then flag else env;
    var url := if fromFlags == "" then Default(homeDir).mcp.serverURL else fromFlags;
    if url == "" then Failure("API URL required. Set CHRONO_API_URL environment variable or use --api-url flag")
    else Success(url)
  }

  // ---------------------------------------------------------------------
  // Project configuration file

  /** The placeholder the installed-skills list replaces. */
  const EmptyInstalled := InstalledKey + "[]"

  const InstalledKey := "installed: "

  /** The template's lines before the URL; the long comment line is given
      in pieces. */
  const ConfigHeader :=
    "# Chrono CLI Configuration\n"
    + "# This file contains " + "project-specific " + "settings for Chrono CLI\n"
    + "\n"
    + "mcp:\n"
    + "    server_url: "
  /** The line naming the project's skills directory. */
  const InstallDirLine := "install_dir: .chrono/skills"

  const ConfigSkillsPart := "skills:\n    " + InstallDirLine + "\n    "

  /** The configuration `init` writes for `apiURL`. */
  function InitialConfigContent(apiURL: string): (r: string)
    ensures HasPrefix(r, ConfigHeader + apiURL + "\n")
    ensures HasSuffix(r, EmptyInstalled + "\n")
    ensures Contains(r, EmptyInstalled)
    ensures HasSuffix(r, ConfigSkillsPart + EmptyInstalled + "\n")
    ensures Contains(r, InstallDirLine)
  {
    var head := ConfigHeader + apiURL + "\n";
    var front := head + ConfigSkillsPart;
    var tail := EmptyInstalled + "\n";
    var r := front + tail;
    assert r == head + (ConfigSkillsPart + tail);
    assert r[..|head|] == head;
    assert r[|r| - |tail|..] == tail;
    assert r[|head|..] == ConfigSkillsPart + tail;
    var dirAt := |head| + |"skills:\n    "|;
    assert r[dirAt..dirAt + |InstallDirLine|] == InstallDirLine;
    assert OccursAt(r, InstallDirLine, dirAt);
    assert r[|front|..|front| + |EmptyInstalled|] == EmptyInstalled;
    assert OccursAt(r, EmptyInstalled, |front|);
    r
  }

  // ---------------------------------------------------------------------
  // Installed skills

  /** The YAML lines recording one skill, stamped with the time it was
      recorded. */
  function SkillEntry(skill: string, serverURL: string, stamp: string): string {
    "  - name: " + skill + "\n"
    + "    url: " + serverURL + "/skills/" + skill + "/SKILL.md\n"
    + "    installed_at: \"" + stamp + "\"\n"
  }

  /** The `installed:` list for the first `n` skills, one entry after another. */
  function BlockUpTo(skills: seq<string>, serverURL: string, stamps: seq<string>, n: nat): string
    requires |stamps| == |skills| && n <= |skills|
  {
    if n == 0 then "installed:\n"
    else BlockUpTo(skills, serverURL, stamps, n - 1) + SkillEntry(skills[n - 1], serverURL, stamps[n - 1])
  }

  /** updateInstalledSkills' list: the header followed by each skill's entry
      in order; `stamps[i]` is the clock reading taken for `skills[i]`. */
  method InstalledBlock(skills: seq<string>, serverURL: string, stamps: seq<string>) returns (block: string)
    requires |stamps| == |skills|
    ensures block == BlockUpTo(skills, serverURL, stamps, |skills|)
    ensures HasPrefix(block, "installed:\n")
  {
    block := "installed:\n";
    var i := 0;
    while i < |skills|
      invariant 0 <= i <= |skills|
      invariant block == BlockUpTo(skills, serverURL, stamps, i)
    {
      block := block + SkillEntry(skills[i], serverURL, stamps[i]);
      i := i + 1;
    }
    BlockStartsWithHeader(skills, serverURL, stamps, |skills|);
  }

  lemma {:induction false} BlockStartsWithHeader(skills: seq<string>, serverURL: string, stamps: seq<string>, n: nat)
    requires |stamps| == |skills| && n <= |skills|
    ensures HasPrefix(BlockUpTo(skills, serverURL, stamps, n), "installed:\n")
  {
    if n > 0 {
      BlockStartsWithHeader(skills, serverURL, stamps, n - 1);
      var prev := BlockUpTo(skills, serverURL, stamps, n - 1);
      var e := SkillEntry(skills[n - 1], serverURL, stamps[n - 1]);
      assert (prev + e)[..|"installed:\n"|] == prev[..|"installed:\n"|];
    }
  }

  /** The line of an entry that holds the skill's download address. */
  function UrlLine(skill: string, serverURL: string): string {
    "    url: " + serverURL + "/skills/" + skill + "/SKILL.md\n"
  }

  lemma EntryHasUrlLine(skill: string, serverURL: string, stamp: string)
    ensures Contains(SkillEntry(skill, serverURL, stamp), UrlLine(skill, serverURL))
  {
    var nameLine := "  - name: " + skill + "\n";
    var urlLine := UrlLine(skill, serverURL);
    var stampLine := "    installed_at: \"" + stamp + "\"\n";
    assert SkillEntry(skill, serverURL, stamp) == nameLine + urlLine + stampLine;
    ContainsItself(urlLine);
    ContainsInRight(nameLine, urlLine, urlLine);
    ContainsInLeft(nameLine + urlLine, stampLine, urlLine);
  }

  /** Every skill's entry appears in the list. */
  lemma {:induction false} BlockListsEverySkill(skills: seq<string>, serverURL: string, stamps: seq<string>, n: nat, k: nat)
    requires |stamps| == |skills| && k < n <= |skills|
    ensures Contains(BlockUpTo(skills, serverURL, stamps, n), SkillEntry(skills[k], serverURL, stamps[k]))
  {
    var e := SkillEntry(skills[k], serverURL, stamps[k]);
    var prev := BlockUpTo(skills, serverURL, stamps, n - 1);
    if k == n - 1 {
      ContainsItself(e);
      ContainsInRight(prev, e, e);
    } else {
      BlockListsEverySkill(skills, serverURL, stamps, n - 1, k);
      ContainsInLeft(prev, SkillEntry(skills[n - 1], serverURL, stamps[n - 1]), e);
    }
  }

  /** The file after recording the list: the first `installed: []` replaced
      by it, or, without a placeholder, the list appended on a new line. */
  function RewriteInstalled(content: string, block: string): (r: string)
    ensures Contains(r, block)
    ensures !Contains(content, EmptyInstalled) ==>
              HasPrefix(r, TrimSuffix(content, "\n") + "\n") && HasSuffix(r, block)
    ensures !Contains(content, EmptyInstalled) ==> r == TrimSuffix(content, "\n") + "\n" + block
    ensures Contains(content, EmptyInstalled) ==>
              exists i :: OccursAt(content, EmptyInstalled, i)
                          && (forall j :: 0 <= j < i ==> !OccursAt(content, EmptyInstalled, j))
                          && HasPrefix(r, content[..i] + block)
                          && HasSuffix(r, content[i + |EmptyInstalled|..])
                          && r == content[..i] + block + content[i + |EmptyInstalled|..]
  {
    if Contains(content, EmptyInstalled) then
      var r := ReplaceFirst(content, EmptyInstalled, block);
      var i :| OccursAt(content, EmptyInstalled, i) && (forall j :: 0 <= j < i ==> !OccursAt(content, EmptyInstalled, j))
               && r == content[..i] + block + content[i + |EmptyInstalled|..];
      ContainsItself(block);
      ContainsInRight(content[..i], block, block);
      ContainsInLeft(content[..i] + block, content[i + |EmptyInstalled|..], block);
      assert r[..|content[..i] + block|] == content[..i] + block;
      r
    else
      var front := TrimSuffix(content, "\n") + "\n";
      var r := front + block;
      ContainsItself(block);
      ContainsInRight(front, block, block);
      assert r[..|front|] == front;
      assert r[|r| - |block|..] == block;
      r
  }

  /** A pattern whose character at `k` occurs neither earlier in it nor in
      `front` cannot start inside `front` in `front + pat + rest`. */
  lemma NoOccurrenceInFront(front: string, pat: string, rest: string, k: nat)
    requires k < |pat| && pat[k] !in pat[..k] && pat[k] !in front
    ensures forall j :: 0 <= j < |front| ==> !OccursAt(front + pat + rest, pat, j)
  {
    var content := front + pat + rest;
    forall j | 0 <= j < |front|
      ensures !OccursAt(content, pat, j)
    {
      assert content[j..j + |pat|][k] == content[j + k];
      if j + k < |front| {
        assert content[j + k] == front[j + k];
      } else {
        assert content[j + k] == pat[j + k - |front|];
        assert pat[j + k - |front|] in pat[..k];
      }
    }
  }

  /** The placeholder that starts right after `front` is the first one when
      no occurrence starts inside `front`; the list then replaces it. */
  lemma ReplaceAfter(front: string, rest: string, block: string)
    requires forall j :: 0 <= j < |front| ==> !OccursAt(front + EmptyInstalled + rest, EmptyInstalled, j)
    ensures RewriteInstalled(front + EmptyInstalled + rest, block) == front + block + rest
  {
    var content := front + EmptyInstalled + rest;
    var at := |front|;
    assert content[at..at + |EmptyInstalled|] == EmptyInstalled;
    assert OccursAt(content, EmptyInstalled, at);
    var r := RewriteInstalled(content, block);
    var i :| OccursAt(content, EmptyInstalled, i)
             && (forall j :: 0 <= j < i ==> !OccursAt(content, EmptyInstalled, j))
             && r == content[..i] + block + content[i + |EmptyInstalled|..];
    assert i == at;
    assert content[..at] == front;
    assert content[at + |EmptyInstalled|..] == rest;
  }

  /** When the text before the placeholder holds no '[', that placeholder is
      the first one, and the list replaces it. */
  lemma ReplaceOnlyPlaceholder(front: string, rest: string, block: string)
    requires '[' !in front
    ensures RewriteInstalled(front + EmptyInstalled + rest, block) == front + block + rest
  {
    assert EmptyInstalled[..|InstalledKey|] == InstalledKey;
    assert EmptyInstalled[|InstalledKey|] == '[';
    assert '[' !in InstalledKey;
    NoOccurrenceInFront(front, EmptyInstalled, rest, |InstalledKey|);
    ReplaceAfter(front, rest, block);
  }

  lemma NoBracketInConcat(a: string, b: string)
    requires '[' !in a && '[' !in b
    ensures '[' !in a + b
  {
  }

  lemma CommentHasNoBracket()
    ensures '[' !in "# Chrono CLI Configuration\n"
    ensures '[' !in "# This file contains "
  {
  }

  lemma NoteHasNoBracket()
    ensures '[' !in "project-specific "
    ensures '[' !in "settings for Chrono CLI\n"
  {
  }

  lemma HeaderHasNoBracket()
    ensures '[' !in ConfigHeader
  {
    var a, b, c := "# Chrono CLI Configuration\n", "# This file contains ", "project-specific ";
    var d := "settings for Chrono CLI\n";
    CommentHasNoBracket();
    NoteHasNoBracket();
    NoBracketInConcat(a, b);
    NoBracketInConcat(a + b, c);
    NoBracketInConcat(a + b + c, d);
    assert '[' !in "\n" && '[' !in "mcp:\n";
    NoBracketInConcat(a + b + c + d, "\n");
    NoBracketInConcat(a + b + c + d + "\n", "mcp:\n");
    assert '[' !in "    server_url: ";
    NoBracketInConcat(a + b + c + d + "\n" + "mcp:\n", "    server_url: ");
  }

  /** The template holds no '[' outside its placeholder. */
  lemma TemplateHasNoBracket()
    ensures '[' !in ConfigHeader && '[' !in ConfigSkillsPart
  {
    HeaderHasNoBracket();
    assert '[' !in InstallDirLine && '[' !in "skills:\n    " && '[' !in "\n    ";
  }

  /** `init` writes the configuration and then records the installed skills
      in it: the list takes the place of the placeholder, and the text
      around it is kept. (A URL containing '[' could itself hold the
      placeholder text, which would then be replaced instead.) */
  lemma InitThenRecord(apiURL: string, block: string)
    requires '[' !in apiURL
    ensures RewriteInstalled(InitialConfigContent(apiURL), block)
            == ConfigHeader + apiURL + "\n" + ConfigSkillsPart + block + "\n"
  {
    var front := ConfigHeader + apiURL + "\n" + ConfigSkillsPart;
    assert InitialConfigContent(apiURL) == front + EmptyInstalled + "\n";
    TemplateHasNoBracket();
    ReplaceOnlyPlaceholder(front, "\n", block);
  }

  /** updateInstalledSkills: an unreadable configuration is an error;
      otherwise the rewritten text records every skill. */
  method UpdateInstalledSkills(existing: Option<string>, skills: seq<string>, serverURL: string, stamps: seq<string>)
    returns (r: Result<string, string>)
    requires |stamps| == |skills|
    ensures r.Failure? <==> existing.None?
    ensures r.Success? ==> r.value == RewriteInstalled(existing.value, BlockUpTo(skills, serverURL, stamps, |skills|))
    ensures r.Success? ==> forall k :: 0 <= k < |skills| ==> Contains(r.value, UrlLine(skills[k], serverURL))
  {
    var block := InstalledBlock(skills, serverURL, stamps);
    if existing.None? {
      return Failure("failed to read config");
    }
    var content := RewriteInstalled(existing.value, block);
    forall k | 0 <= k < |skills|
      ensures Contains(content, UrlLine(skills[k], serverURL))
    {
      var e := SkillEntry(skills[k], serverURL, stamps[k]);
      BlockListsEverySkill(skills, serverURL, stamps, |skills|, k);
      EntryHasUrlLine(skills[k], serverURL, stamps[k]);
      ContainsTransitive(content, block, e);
      ContainsTransitive(content, e, UrlLine(skills[k], serverURL));
    }
    return Success(content);
  }

  // ---------------------------------------------------------------------
  // .gitignore

  /** What reading `.gitignore` gave. */
  datatype ReadOutcome = NotFound | ReadError | Read(text: string)

  const GitIgnoreItems := [".chrono/", ".cursor/skills/"]

  /** The items not yet mentioned anywhere in `content`, in the fixed order. */
  function MissingItems(content: string): (items: seq<string>)
    ensures forall x :: x in items <==> x in GitIgnoreItems && !Contains(content, x)
    ensures items in {[], [GitIgnoreItems[0]], [GitIgnoreItems[1]], GitIgnoreItems}
  {
    var chrono, cursor := GitIgnoreItems[0], GitIgnoreItems[1];
    if Contains(content, chrono) then
      if Contains(content, cursor) then [] else [cursor]
    else
      if Contains(content, cursor) then [chrono] else GitIgnoreItems
  }

  /** Each item on a line of its own: the items joined by newlines, with a
      final newline after the last one. */
  function ItemLines(items: seq<string>): (r: string)
    ensures forall x :: x in items ==> Contains(r, x + "\n")
    ensures r == JoinWith(items + [""], '\n')
  {
    if items == [] then ""
    else
      var rest := ItemLines(items[1..]);
      assert (items + [""])[1..] == items[1..] + [""];
      ContainsItself(items[0] + "\n");
      ContainsInLeft(items[0] + "\n", rest, items[0] + "\n");
      forall x | x in items[1..]
        ensures Contains(items[0] + "\n" + rest, x + "\n")
      {
        ContainsInRight(items[0] + "\n", rest, x + "\n");
      }
      items[0] + "\n" + rest
  }

  /** Splitting the appended lines at newlines gives back the items, then
      the empty text after the final newline. */
  lemma ItemLinesSplit(items: seq<string>)
    requires forall i :: 0 <= i < |items| ==> '\n' !in items[i]
    ensures Split(ItemLines(items), '\n') == items + [""]
  {
    SplitJoin(items + [""], '\n');
  }

  /** The text `.gitignore` holds before the update (a missing file is empty). */
  function Existing(read: ReadOutcome): string {
    if read.Read? then read.text else ""
  }

  /** addToGitIgnore: the new file text, or None when nothing is written (the
      file could not be read, or both items are already present). The update
      only appends: a `# Chrono CLI` header (after a blank line unless the file
      was empty) and the missing items. */
  function GitIgnoreUpdate(read: ReadOutcome): (r: Option<string>)
    ensures r.None? <==> read.ReadError? || MissingItems(Existing(read)) == []
    ensures r.Some? ==> HasPrefix(r.value, Existing(read))
    ensures r.Some? ==>
              r.value[|Existing(read)|..]
                == (if Existing(read) == "" then "" else "\n") + "# Chrono CLI\n" + ItemLines(MissingItems(Existing(read)))
    ensures r.Some? ==> forall x :: x in GitIgnoreItems ==> Contains(r.value, x)
  {
    if read.ReadError? then None
    else
      var content := Existing(read);
      var toAdd := MissingItems(content);
      if toAdd == [] then None
      else
        var header := (if content == "" then "" else "\n") + "# Chrono CLI\n";
        var added := header + ItemLines(toAdd);
        var r := content + added;
        assert r[..|content|] == content;
        assert r[|content|..] == added;
        AppendedItemsMentioned(content, header, toAdd);
        Some(r)
  }

  /** After appending the lines of the missing items, every item is
      mentioned: the present ones in the old text, the others in the lines. */
  lemma AppendedItemsMentioned(content: string, header: string, toAdd: seq<string>)
    requires forall x :: x in toAdd <==> x in GitIgnoreItems && !Contains(content, x)
    ensures forall x :: x in GitIgnoreItems ==> Contains(content + (header + ItemLines(toAdd)), x)
  {
    var added := header + ItemLines(toAdd);
    var r := content + added;
    forall x | x in GitIgnoreItems
      ensures Contains(r, x)
    {
      if Contains(content, x) {
        ContainsInLeft(content, added, x);
      } else {
        assert x in toAdd;
        ContainsInRight(header, ItemLines(toAdd), x + "\n");
        ContainsInRight(content, added, x + "\n");
        ContainsItself(x);
        ContainsInLeft(x, "\n", x);
        ContainsTransitive(r, x + "\n", x);
      }
    }
  }

  /** Running the update on its own result writes nothing. */
  lemma GitIgnoreIdempotent(read: ReadOutcome)
    requires GitIgnoreUpdate(read).Some?
    ensures GitIgnoreUpdate(Read(GitIgnoreUpdate(read).value)).None?
  {
    var text := GitIgnoreUpdate(read).value;
    assert MissingItems(text) == [] by {
      assert Contains(text, GitIgnoreItems[0]) && Contains(text, GitIgnoreItems[1]);
    }
  }

  /** A missing file gets exactly the header and both items. */
  lemma GitIgnoreFromNothing()
    ensures GitIgnoreUpdate(NotFound) == Some("# Chrono CLI\n" + ItemLines(GitIgnoreItems))
  {
    NothingMissingFromEmpty("");
    var lines := ItemLines(GitIgnoreItems);
    assert "" + ("" + "# Chrono CLI\n" + lines) == "# Chrono CLI\n" + lines;
  }

  lemma NothingMissingFromEmpty(content: string)
    requires content == ""
    ensures MissingItems(content) == GitIgnoreItems
  {
  }
}
