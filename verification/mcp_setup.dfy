/** `mcp-setup`: choosing the token and the editor, and merging the
    `developer-platform` server entry into the editor's MCP configuration
    file. Prompts, token creation over the network, directory creation and
    the connection test are not modelled. */
module McpSetup {
  import opened Wrappers
  import opened Strings
  import opened Configuration

  // ---------------------------------------------------------------------
  // Token

  /** min */
  function Min(a: int, b: int): (r: int)
    ensures r <= a && r <= b
    ensures r == a || r == b
  {
    if a < b then a else b
  }

  /** The part of a token echoed back: its first ten characters, or all of
      it when shorter. */
  function TokenPreview(token: string): (r: string)
    ensures HasPrefix(token, r)
    ensures |r| == if |token| < 10 then |token| else 10
  {
    token[..Min(10, |token|)]
  }

  /** The echo of a freshly created token as written: it slices ten
      characters without a bound check, so a shorter token makes the command
      panic (None). */
  function CreatedTokenPreviewAsWritten(token: string): (r: Option<string>)
    ensures r.Some? <==> |token| >= 10
    ensures r.Some? ==> r.value == TokenPreview(token)
  {
    if |token| >= 10 then Some(token[..10]) else None
  }

  /** A created token of three characters makes the echo panic, while the
      bounded preview used for a supplied token shows all of it. */
  lemma ShortCreatedTokenPanics()
    ensures CreatedTokenPreviewAsWritten("abc").None?
    ensures TokenPreview("abc") == "abc"
  {
  }

  /** Where the token comes from: the `--token` flag, or a new token created
      with the stored login. */
  datatype TokenPlan = UseGiven(token: string) | CreateNew(accessToken: string)

  /** A supplied token skips the login check; otherwise a live login is
      required. */
  function PlanToken(c: Config, flagToken: string, now: Instant): (r: Result<TokenPlan, string>)
    ensures flagToken != "" ==> r == Success(UseGiven(flagToken))
    ensures flagToken == "" ==> (r.Failure? <==> !IsLoggedIn(c) || IsTokenExpired(c, now))
    ensures r.Success? && r.value.CreateNew? ==> r.value.accessToken == c.auth.accessToken != ""
  {
    if flagToken != "" then Success(UseGiven(flagToken))
    else if !IsLoggedIn(c) || IsTokenExpired(c, now) then
      Failure("not logged in. Run 'chrono login' first or use --token")
    else Success(CreateNew(c.auth.accessToken))
  }

  // ---------------------------------------------------------------------
  // Editor

  const EditorNames := ["Cursor IDE", "Claude Code", "Codex", "Gemini CLI"]

  /** The editor argument with '-' removed, lower-cased, and '_' removed. */
  function NormalizeEditor(editor: string): (r: string)
    ensures '-' !in r && '_' !in r
    ensures forall i :: 0 <= i < |r| ==> !('A' <= r[i] <= 'Z')
  {
    var lower := ToLower(Without(editor, '-'));
    var r := Without(lower, '_');
    assert forall x :: x in lower ==> !('A' <= x <= 'Z');
    assert forall i :: 0 <= i < |r| ==> r[i] in lower;
    r
  }

  /** The switch as written: "claude-code" and "gemini-cli" can never match a
      normalised name, and the Gemini alias is spelled "gemicli". */
  function EditorIndexAsWritten(normalized: string): int {
    match normalized
    case "cursor" => 0
    case "cursoride" => 0
    case "claude" => 1
    case "claudecode" => 1
    case "claude-code" => 1
    case "codex" => 2
    case "gemini" => 3
    case "gemicli" => 3
    case "gemini-cli" => 3
    case _ => -1
  }

  /** mapEditorToIndex as written. */
  function MapEditorToIndexAsWritten(editor: string): (r: int)
    ensures -1 <= r < |EditorNames|
  {
    EditorIndexAsWritten(NormalizeEditor(editor))
  }

  /** The switch with the hyphenated aliases in their normalised form. */
  function EditorIndex(normalized: string): int {
    match normalized
    case "cursor" => 0
    case "cursoride" => 0
    case "claude" => 1
    case "claudecode" => 1
    case "codex" => 2
    case "gemini" => 3
    case "gemicli" => 3
    case "geminicli" => 3
    case _ => -1
  }

  /** mapEditorToIndex, accepting every alias its switch lists. */
  function MapEditorToIndex(editor: string): (r: int)
    ensures -1 <= r < |EditorNames|
    ensures r == 0 <==> NormalizeEditor(editor) in {"cursor", "cursoride"}
    ensures r == 1 <==> NormalizeEditor(editor) in {"claude", "claudecode"}
    ensures r == 2 <==> NormalizeEditor(editor) == "codex"
    ensures r == 3 <==> NormalizeEditor(editor) in {"gemini", "gemicli", "geminicli"}
    ensures r == -1 <==>
              NormalizeEditor(editor)
                !in {"cursor", "cursoride", "claude", "claudecode", "codex", "gemini", "gemicli", "geminicli"}
  {
    EditorIndex(NormalizeEditor(editor))
  }

  /** Text that normalisation leaves alone: no separators, no capitals. */
  predicate IsNormalized(s: string) {
    '-' !in s && '_' !in s && forall i :: 0 <= i < |s| ==> !('A' <= s[i] <= 'Z')
  }

  lemma {:induction false} WithoutConcat(a: string, b: string, c: char)
    ensures Without(a + b, c) == Without(a, c) + Without(b, c)
  {
    if a != [] {
      assert (a + b)[1..] == a[1..] + b;
      WithoutConcat(a[1..], b, c);
    } else {
      assert a + b == b;
    }
  }

  /** Normalisation fixes normalised text, and so does every step of it. */
  lemma NormalizeFixes(s: string)
    requires IsNormalized(s)
    ensures Without(s, '-') == s && Without(ToLower(s), '_') == s
    ensures NormalizeEditor(s) == s
  {
    WithoutAbsent(s, '-');
    assert forall i :: 0 <= i < |s| ==> LowerChar(s[i]) == s[i];
    assert ToLower(s) == s;
    WithoutAbsent(s, '_');
  }

  lemma WithoutOnly(c: char)
    ensures Without([c], c) == []
  {
    assert [c][1..] == [];
  }

  lemma WithoutDropsTail(a: string, h: string, c: char)
    requires Without(h, c) == []
    ensures Without(a + h, c) == Without(a, c)
  {
    WithoutConcat(a, h, c);
    assert Without(a, c) + [] == Without(a, c);
  }

  lemma WithoutHyphenBetween(a: string, b: string)
    requires '-' !in a && '-' !in b
    ensures Without(a + "-" + b, '-') == a + b
  {
    var h := "-";
    WithoutOnly('-');
    WithoutConcat(a + h, b, '-');
    WithoutDropsTail(a, h, '-');
    WithoutAbsent(a, '-');
    WithoutAbsent(b, '-');
  }

  lemma NormalizedConcat(a: string, b: string)
    requires IsNormalized(a) && IsNormalized(b)
    ensures IsNormalized(a + b)
  {
    var s := a + b;
    forall i | 0 <= i < |s|
      ensures !('A' <= s[i] <= 'Z')
    {
      if i < |a| {
        assert s[i] == a[i];
      } else {
        assert s[i] == b[i - |a|];
      }
    }
  }

  /** A hyphen between two normalised words disappears: `a-b` normalises to
      `ab`. */
  lemma NormalizeHyphenated(a: string, b: string)
    requires IsNormalized(a) && IsNormalized(b)
    ensures NormalizeEditor(a + "-" + b) == a + b
  {
    WithoutHyphenBetween(a, b);
    NormalizedConcat(a, b);
    NormalizeFixes(a + b);
  }

  /** The two words of a name, in any capitalisation, joined with or without
      a separator: lower-cased and joined they are the normalised name. */
  lemma NormalizeTwoWords(a: string, b: string, c: char)
    requires c == '-' || c == '_'
    requires IsNormalized(ToLower(a)) && IsNormalized(ToLower(b))
    ensures NormalizeEditor(a + [c] + b) == ToLower(a) + ToLower(b)
    ensures NormalizeEditor(a + b) == ToLower(a) + ToLower(b)
  {
    NormalizeIgnoresSeparator(a, b, c);
    NormalizeCaseInsensitive(a + b);
    ToLowerConcat(a, b);
    NormalizedConcat(ToLower(a), ToLower(b));
    NormalizeFixes(ToLower(a) + ToLower(b));
  }

  /** The documented `gemini-cli` spelling, in any capitalisation, is
      rejected as written, while the corrected mapping selects Gemini CLI. */
  lemma GeminiCliRejectedAsWritten(word: string, suffix: string)
    requires ToLower(word) == "gemini" && ToLower(suffix) == "cli"
    ensures MapEditorToIndexAsWritten(word + "-" + suffix) == -1
    ensures MapEditorToIndex(word + "-" + suffix) == 3
  {
    assert IsNormalized(ToLower(word)) && IsNormalized(ToLower(suffix));
    NormalizeTwoWords(word, suffix, '-');
    assert ToLower(word) + ToLower(suffix) == "geminicli";
  }

  /** The two mappings differ only on the spelling the switch got wrong:
      wherever the written one finds an editor, the corrected one finds the
      same editor. */
  lemma CorrectedMappingExtends(editor: string)
    ensures MapEditorToIndexAsWritten(editor) >= 0 ==>
              MapEditorToIndex(editor) == MapEditorToIndexAsWritten(editor)
    ensures MapEditorToIndex(editor) != MapEditorToIndexAsWritten(editor) ==>
              NormalizeEditor(editor) == "geminicli"
  {
  }

  /** Lower-casing twice is lower-casing once. */
  lemma ToLowerIdempotent(s: string)
    ensures ToLower(ToLower(s)) == ToLower(s)
  {
  }

  /** Normalising a normalised name changes nothing. */
  lemma NormalizeIdempotent(editor: string)
    ensures NormalizeEditor(NormalizeEditor(editor)) == NormalizeEditor(editor)
  {
    var n := NormalizeEditor(editor);
    WithoutAbsent(n, '-');
    assert forall i :: 0 <= i < |n| ==> LowerChar(n[i]) == n[i];
    assert ToLower(n) == n;
    WithoutAbsent(n, '_');
  }

  /** Case and the separators '-' and '_' never matter: an editor name and its
      normalised form select the same editor. */
  lemma EditorSpellingInsensitive(editor: string)
    ensures MapEditorToIndex(NormalizeEditor(editor)) == MapEditorToIndex(editor)
  {
    NormalizeIdempotent(editor);
  }

  /** Lower-casing works character by character. */
  lemma ToLowerConcat(a: string, b: string)
    ensures ToLower(a + b) == ToLower(a) + ToLower(b)
  {
  }

  /** Lower-casing neither creates nor removes a separator, so it commutes
      with removing one. */
  lemma {:induction false} ToLowerWithout(s: string, c: char)
    requires c == '-' || c == '_'
    ensures ToLower(Without(s, c)) == Without(ToLower(s), c)
  {
    if s != [] {
      var head := if s[0] == c then [] else [s[0]];
      ToLowerConcat(head, Without(s[1..], c));
      ToLowerWithout(s[1..], c);
      assert ToLower(s)[1..] == ToLower(s[1..]);
    }
  }

  /** Normalisation is lower-casing, then removing both separators. */
  lemma NormalizeAsRemoval(editor: string)
    ensures NormalizeEditor(editor) == Without(Without(ToLower(editor), '-'), '_')
  {
    ToLowerWithout(editor, '-');
  }

  /** Lower-casing the name first makes no difference. */
  lemma NormalizeCaseInsensitive(editor: string)
    ensures NormalizeEditor(ToLower(editor)) == NormalizeEditor(editor)
  {
    NormalizeAsRemoval(editor);
    NormalizeAsRemoval(ToLower(editor));
    ToLowerIdempotent(editor);
  }

  /** Removing a separator from a name keeps what surrounds it, in order. */
  lemma WithoutSeparator(x: string, y: string, c: char, d: char)
    ensures c == d ==> Without(x + [c] + y, d) == Without(x, d) + Without(y, d)
    ensures c != d ==> Without(x + [c] + y, d) == Without(x, d) + [c] + Without(y, d)
  {
    WithoutConcat(x + [c], y, d);
    WithoutConcat(x, [c], d);
    assert Without([c], d) == (if c == d then [] else [c]) by {
      assert [c][1..] == [];
    }
  }

  /** Removing both separators erases one between any two parts. */
  lemma RemovalIgnoresSeparator(x: string, y: string, c: char)
    requires c == '-' || c == '_'
    ensures Without(Without(x + [c] + y, '-'), '_') == Without(Without(x + y, '-'), '_')
  {
    WithoutSeparator(x, y, c, '-');
    WithoutConcat(x, y, '-');
    if c == '_' {
      WithoutSeparator(Without(x, '-'), Without(y, '-'), c, '_');
      WithoutConcat(Without(x, '-'), Without(y, '-'), '_');
    }
  }

  /** A separator anywhere in a name makes no difference. */
  lemma NormalizeIgnoresSeparator(a: string, b: string, c: char)
    requires c == '-' || c == '_'
    ensures NormalizeEditor(a + [c] + b) == NormalizeEditor(a + b)
  {
    NormalizeAsRemoval(a + [c] + b);
    NormalizeAsRemoval(a + b);
    ToLowerConcat(a + [c], b);
    ToLowerConcat(a, [c]);
    ToLowerConcat(a, b);
    assert ToLower([c]) == [c];
    RemovalIgnoresSeparator(ToLower(a), ToLower(b), c);
  }

  /** Claude Code in any capitalisation, with a hyphen, an underscore or
      nothing between its words ("Claude-Code", "claude_code", "CLAUDECODE"),
      selects Claude Code. */
  lemma ClaudeCodeSpellings(word: string, suffix: string)
    requires ToLower(word) == "claude" && ToLower(suffix) == "code"
    ensures MapEditorToIndex(word + "-" + suffix) == 1
    ensures MapEditorToIndex(word + "_" + suffix) == 1
    ensures MapEditorToIndex(word + suffix) == 1
  {
    assert IsNormalized(ToLower(word)) && IsNormalized(ToLower(suffix));
    NormalizeTwoWords(word, suffix, '-');
    NormalizeTwoWords(word, suffix, '_');
    assert ToLower(word) + ToLower(suffix) == "claudecode";
  }

  /** getEditorName */
  function GetEditorName(idx: int): (r: string)
    ensures 0 <= idx < |EditorNames| ==> r == EditorNames[idx]
    ensures r == "Unknown" <==> !(0 <= idx < |EditorNames|)
  {
    if 0 <= idx < |EditorNames| then EditorNames[idx] else "Unknown"
  }

  /** The editor argument: the `--editor` flag, else the first positional
      argument, else none (the interactive prompt). */
  function EditorArgument(flag: string, args: seq<string>): string {
    if flag != "" then flag else if |args| > 0 then args[0] else ""
  }

  /** Editor resolution: None means "ask interactively"; an unknown name is
      an error; a known one yields an index with a display name. */
  function ResolveEditor(flag: string, args: seq<string>): (r: Result<Option<nat>, string>)
    ensures EditorArgument(flag, args) == "" ==> r == Success(None)
    ensures r.Failure? <==> EditorArgument(flag, args) != "" && MapEditorToIndex(EditorArgument(flag, args)) < 0
    ensures r.Success? && r.value.Some? ==>
              r.value.value < |EditorNames| && GetEditorName(r.value.value) != "Unknown"
              && r.value.value == MapEditorToIndex(EditorArgument(flag, args))
  {
    var editor := EditorArgument(flag, args);
    if editor == "" then Success(None)
    else
      var idx := MapEditorToIndex(editor);
      if idx < 0 then Failure("unknown editor: " + editor + ". Valid options: cursor, claude-code, codex, gemini")
      else Success(Some(idx as nat))
  }

  /** Editor resolution as the command runs it, on the switch as written. */
  function ResolveEditorAsWritten(flag: string, args: seq<string>): (r: Result<Option<nat>, string>)
    ensures EditorArgument(flag, args) == "" ==> r == Success(None)
    ensures r.Failure? <==>
              EditorArgument(flag, args) != "" && MapEditorToIndexAsWritten(EditorArgument(flag, args)) < 0
    ensures r.Success? && r.value.Some? ==>
              r.value.value < |EditorNames| && GetEditorName(r.value.value) != "Unknown"
              && r.value.value == MapEditorToIndexAsWritten(EditorArgument(flag, args))
  {
    var editor := EditorArgument(flag, args);
    if editor == "" then Success(None)
    else
      var idx := MapEditorToIndexAsWritten(editor);
      if idx < 0 then Failure("unknown editor: " + editor + ". Valid options: cursor, claude-code, codex, gemini")
      else Success(Some(idx as nat))
  }

  /** The two resolutions agree on every name except the spelling the switch
      got wrong: `gemini-cli` is an unknown editor as written and Gemini CLI
      once corrected. */
  lemma ResolutionsDifferOnGeminiCli(word: string, suffix: string, flag: string, args: seq<string>)
    requires ToLower(word) == "gemini" && ToLower(suffix) == "cli"
    ensures ResolveEditorAsWritten(word + "-" + suffix, args).Failure?
    ensures ResolveEditor(word + "-" + suffix, args) == Success(Some(3))
    ensures ResolveEditorAsWritten(flag, args).Success? ==> ResolveEditor(flag, args) == ResolveEditorAsWritten(flag, args)
  {
    GeminiCliRejectedAsWritten(word, suffix);
    CorrectedMappingExtends(EditorArgument(flag, args));
  }

  /** The flag wins over a positional argument. */
  lemma FlagBeatsArgument(flag: string, args: seq<string>)
    requires flag != ""
    ensures ResolveEditor(flag, args) == ResolveEditor(flag, [])
  {
  }

  // ---------------------------------------------------------------------
  // MCP configuration files

  /** A decoded JSON value. */
  datatype Json =
    | JNull
    | JBool(b: bool)
    | JNumber(text: string)
    | JString(s: string)
    | JArray(items: seq<Json>)
    | JObject(fields: map<string, Json>)

  /** What reading the configuration file gave: nothing, text that is not
      JSON, or a decoded document. */
  datatype ConfigFile = Missing | Unparsable | Parsed(doc: Json)

  const ServersKey := "mcpServers"
  const ServerName := "developer-platform"

  /** The server entry the command writes. */
  function ServerEntry(serverURL: string, token: string): (e: Json)
    ensures e.JObject? && e.fields.Keys == {"url", "headers"}
    ensures e.fields["url"] == JString(serverURL + "/mcp")
    ensures e.fields["headers"] == JObject(map["Authorization" := JString("Bearer " + token)])
  {
    JObject(map["url" := JString(serverURL + "/mcp"),
                "headers" := JObject(map["Authorization" := JString("Bearer " + token)])])
  }

  /** The servers an existing file declares: its `mcpServers` object. A
      missing or unparsable file, a document that is not an object, and an
      `mcpServers` that is absent, null or not an object (a decoding error)
      all give no servers. */
  function ExistingServers(f: ConfigFile): (servers: map<string, Json>)
    ensures servers != map[] ==> f.Parsed? && f.doc.JObject? && ServersKey in f.doc.fields
                                 && f.doc.fields[ServersKey] == JObject(servers)
    ensures f.Parsed? && f.doc.JObject? && ServersKey in f.doc.fields && f.doc.fields[ServersKey].JObject? ==>
              servers == f.doc.fields[ServersKey].fields
  {
    match f
    case Parsed(JObject(fields)) =>
      if ServersKey in fields && fields[ServersKey].JObject? then fields[ServersKey].fields else map[]
    case _ => map[]
  }

  /** The servers after the upsert: ours added or replaced, all others kept. */
  function UpsertServer(servers: map<string, Json>, serverURL: string, token: string): (r: map<string, Json>)
    ensures r.Keys == servers.Keys + {ServerName}
    ensures r[ServerName] == ServerEntry(serverURL, token)
    ensures forall k :: k in servers && k != ServerName ==> r[k] == servers[k]
  {
    servers[ServerName := ServerEntry(serverURL, token)]
  }

  /** mergeMCPConfig / mergeCursorConfig as written: the file is decoded into
      a record holding only `mcpServers`, so the document written back holds
      nothing else. */
  function MergeServersAsWritten(f: ConfigFile, serverURL: string, token: string): (doc: Json)
    ensures doc.JObject? && doc.fields.Keys == {ServersKey}
    ensures doc.fields[ServersKey] == JObject(UpsertServer(ExistingServers(f), serverURL, token))
  {
    JObject(map[ServersKey := JObject(UpsertServer(ExistingServers(f), serverURL, token))])
  }

  /** An editor settings file with a theme loses the theme. */
  lemma MergeDropsOtherSettings(serverURL: string, token: string)
    ensures var f := Parsed(JObject(map["theme" := JString("Dark"), ServersKey := JObject(map[])]));
            "theme" !in MergeServersAsWritten(f, serverURL, token).fields
  {
  }

  /** The merge as documented: the `mcpServers` object gets our entry, every
      other server and every other top-level setting of an object document
      stays as it was. */
  function MergeServers(f: ConfigFile, serverURL: string, token: string): (doc: Json)
    ensures doc.JObject? && ServersKey in doc.fields
    ensures doc.fields[ServersKey] == JObject(UpsertServer(ExistingServers(f), serverURL, token))
    ensures f.Parsed? && f.doc.JObject? ==>
              doc.fields.Keys == f.doc.fields.Keys + {ServersKey}
              && forall k :: k in f.doc.fields && k != ServersKey ==> doc.fields[k] == f.doc.fields[k]
    ensures !(f.Parsed? && f.doc.JObject?) ==> doc.fields.Keys == {ServersKey}
  {
    var others := match f
                  case Parsed(JObject(fields)) => fields
                  case _ => map[];
    JObject(others[ServersKey := JObject(UpsertServer(ExistingServers(f), serverURL, token))])
  }

  /** Merging into a missing, unparsable or empty file gives exactly our
      server. */
  lemma MergeIntoNothing(f: ConfigFile, serverURL: string, token: string)
    requires f.Missing? || f.Unparsable? || f == Parsed(JObject(map[]))
    ensures MergeServers(f, serverURL, token)
            == JObject(map[ServersKey := JObject(map[ServerName := ServerEntry(serverURL, token)])])
    ensures MergeServersAsWritten(f, serverURL, token) == MergeServers(f, serverURL, token)
  {
    assert ExistingServers(f) == map[];
  }

  /** With the corrected merge, running the setup twice with the same URL
      and token writes the same document as running it once. */
  lemma MergeIdempotent(f: ConfigFile, serverURL: string, token: string)
    ensures var once := MergeServers(f, serverURL, token);
            MergeServers(Parsed(once), serverURL, token) == once
  {
    var once := MergeServers(f, serverURL, token);
    var servers := UpsertServer(ExistingServers(f), serverURL, token);
    assert ExistingServers(Parsed(once)) == servers;
    assert UpsertServer(servers, serverURL, token) == servers;
    var twice := MergeServers(Parsed(once), serverURL, token);
    assert twice.fields.Keys == once.fields.Keys;
  }

  /** Reading back the written document gives the existing servers with
      ours upserted: every other server survives with its settings. */
  lemma MergeThenRead(f: ConfigFile, serverURL: string, token: string)
    ensures ExistingServers(Parsed(MergeServers(f, serverURL, token)))
            == UpsertServer(ExistingServers(f), serverURL, token)
    ensures forall k :: k in ExistingServers(f) ==>
              k in ExistingServers(Parsed(MergeServers(f, serverURL, token)))
    ensures forall k :: k in ExistingServers(f) && k != ServerName ==>
              ExistingServers(Parsed(MergeServers(f, serverURL, token)))[k] == ExistingServers(f)[k]
  {
  }

  /** The merge as written is idempotent too: a second run with the same
      URL and token writes the same document as the first. */
  lemma MergeAsWrittenIdempotent(f: ConfigFile, serverURL: string, token: string)
    ensures var once := MergeServersAsWritten(f, serverURL, token);
            MergeServersAsWritten(Parsed(once), serverURL, token) == once
  {
    var once := MergeServersAsWritten(f, serverURL, token);
    var servers := UpsertServer(ExistingServers(f), serverURL, token);
    assert ExistingServers(Parsed(once)) == servers;
    assert UpsertServer(servers, serverURL, token) == servers;
  }

  /** Both merges write the same servers; the written one only loses the
      other top-level settings. */
  lemma MergesAgreeOnServers(f: ConfigFile, serverURL: string, token: string)
    ensures MergeServers(f, serverURL, token).fields[ServersKey]
            == MergeServersAsWritten(f, serverURL, token).fields[ServersKey]
    ensures !(f.Parsed? && f.doc.JObject?) ==>
              MergeServers(f, serverURL, token) == MergeServersAsWritten(f, serverURL, token)
  {
  }
}
