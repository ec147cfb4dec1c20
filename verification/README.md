# chrono-cli core, modelled in Dafny

This project models the decision logic of the `chrono` command-line tool. The tool
prepares a project for the Developer Platform and wires AI editors to its MCP
server. Modelled here:

- **The project detector.** It classifies a directory tree as frontend, backend,
  full-stack or unknown. For each side it finds the framework, language, port,
  Dockerfile and environment-variable names. It also reports which databases and
  caches the root manifests mention. Detection uses first-match priority lists,
  a lenient line-based `package.json` scanner and a prefix-based dependency
  lookup.
- **The persisted configuration.** This covers the login and expiry predicates,
  clearing credentials, the defaults, and the raw-content address of a skill.
- **`init`.** It chooses the API URL, writes the initial project configuration,
  records the installed skills in it, and appends the generated directories to
  `.gitignore`.
- **`mcp-setup`.** It chooses the token, maps an editor name to an editor, and
  merges the `developer-platform` server entry into an editor's MCP settings file.
- **`login`, `logout` and `status`.** This covers the user-code display, the
  poll-interval clamp, the per-answer polling decision, the "already logged in"
  shortcut, logout, and the status classification.
- **`version`.** It assembles the version text.

The modules follow the program's structure:

| module | file | what it holds |
|---|---|---|
| `Wrappers` | `wrappers.dfy` | `Option` and `Result` |
| `Strings` | `strings.dfy` | the ASCII string operations the tool relies on |
| `FileSystem` | `filesystem.dfy` | an immutable directory tree |
| `Manifest` | `manifest.dfy` | the dependency scanner |
| `Detector` | `detector.dfy` | the project detector |
| `Configuration` | `config.dfy` | the persisted configuration |
| `InitCmd` | `init_cmd.dfy` | `init` |
| `McpSetup` | `mcp_setup.dfy` | `mcp-setup` |
| `Login` | `login.dfy` | `login`, `logout` and `status` |
| `Version` | `version.dfy` | `version` |

A few conventions run through the model:

- **Files.** A directory tree is a map from root-relative paths to contents, plus
  a set of directories. `os.Stat` succeeds for a file, a listed directory, or a
  directory implied by a file or directory below it. `os.ReadFile` succeeds for files only.
- **Time.** Time is whole seconds since Go's zero time; the zero time is 0. The
  current time is always a parameter.
- **Strings.** A `string` holds one character per byte of ASCII text.

## Model

| member | source | states |
|---|---|---|
| `Manifest.ParseDependencies` | pkg/detector/detector.go:505-511 | no recorded dependency has an empty name |
| `Manifest.ParseDependenciesSpec` | pkg/detector/detector.go:482-517 | a name is recorded exactly when some trimmed line records it: the line lies after a `dependencies`/`devDependencies` header, no `}`/`]` line comes between, it is not itself a header or closer, and it has a non-empty name before a `:`. The recorded version is the one from the last such line. |
| `Manifest.NoHeaderNoDeps` | pkg/detector/detector.go:486-503 | a manifest with no section header yields no dependencies |
| `Manifest.HasDep` | pkg/detector/detector.go:519-533 | true exactly when some declared name starts with the queried name (an exact match is one case of this) |
| `Manifest.HasDepShorter` | pkg/detector/detector.go:525-530 | a dependency that matches a name also matches every prefix of that name |
| `Detector.FindDockerfile` | pkg/detector/detector.go:461-474 | finds a candidate exactly when some candidate exists, is readable and holds `FROM` plus one of `EXPOSE`/`CMD`/`ENTRYPOINT`. It returns the first such candidate, unjoined, with true; otherwise `("", false)`. |
| `Detector.CommentedFromCounts` | pkg/detector/detector.go:476-480 | a commented-out `FROM` still makes a Dockerfile valid (the test is a raw substring match) |
| `Detector.DeclaredKey` | pkg/detector/detector.go:433-440 | a line declares a key exactly when its trimmed text is not empty, does not start with `#` and holds a `=`. The key is the trimmed text before the first `=`. |
| `Detector.HarvestedKey` | pkg/detector/detector.go:433-446 | a line contributes its declared key (the trimmed text before the first `=`, after skipping blanks and `#` comments) unless the key's lower-case form contains `secret`, `password` or `key` |
| `Detector.DetectEnvVars` | pkg/detector/detector.go:420-452 | every stored value is `[VALUE]`; no secret-looking key is stored; a key is present exactly when some candidate file, read in order, declares it |
| `Detector.EnvVarsAccumulate` | pkg/detector/detector.go:423-449 | appending candidate files never removes a key |
| `Detector.FirstMatch` | pkg/detector/detector.go:176-194 | returns the first table row any of whose markers is a dependency; no earlier row matches; None when no row matches |
| `Detector.PackageDeps` | pkg/detector/detector.go:160-170 | the root or subdirectory `package.json` is parsed exactly when it is a readable file |
| `Detector.DetectFrontend` | pkg/detector/detector.go:158-227 | finds a stack exactly when `package.json` is readable and a framework row matches. The first matching row fixes framework and port. The language is TypeScript iff a TypeScript marker is present, else JavaScript. The fixed npm commands, the Dockerfile search and the env-file harvest complete the stack. |
| `Detector.FrontendTablePriority` | pkg/detector/detector.go:176-182 | `next` selects the first row; without `next`, `react` selects the second |
| `Detector.FrontendPriority` | pkg/detector/detector.go:176-194 | `next` beats every other framework; otherwise `react` beats `vue`, `vite` and `svelte` |
| `Detector.ReactDomSubsumed` | pkg/detector/detector.go:180 | the react row matches exactly when `react` matches, because `react-dom` starts with `react` |
| `Detector.GoBackend` | pkg/detector/detector.go:257-285 | gin on Go 1.22, port 8080, built into `bin/server` and started from there. The Dockerfile is the first valid one of `backend/Dockerfile`, `Dockerfile`, `Dockerfile.backend`; the keys come from `backend/.env` and `.env`. |
| `Detector.PythonBackend` | pkg/detector/detector.go:288-309 | FastAPI with no version, port 8000, installed with pip and served by uvicorn on port 8000. The Dockerfile is the first valid one of `backend/Dockerfile`, `Dockerfile`; the keys come from `backend/.env` and `.env`. |
| `Detector.NodeBackend` | pkg/detector/detector.go:312-341 | fastify if present, else koa if present, else express, each as an iff. Language nodejs with no version, port 8080, `npm run build` and `npm start`. The Dockerfile is the first valid one of `backend/Dockerfile`, `api/Dockerfile`, `Dockerfile`; the keys come from `backend/.env` and `.env`. |
| `Detector.DetectBackend` | pkg/detector/detector.go:230-254 | probes in order. `go.mod` gives gin/go/1.22/8080. Else `requirements.txt` or `pyproject.toml` gives fastapi/python/8000. Else there is a backend iff `package.json` names express, fastify or koa, and it is the Node stack. Each branch gives exactly that language's stack, with its own Dockerfile candidates. Every backend takes its keys from `backend/.env` and `.env`. The language is always one of go, python, nodejs. |
| `Detector.FirstManifest` | pkg/detector/detector.go:231-245 | the first marker whose manifest exists; none exists before it |
| `Detector.BackendByManifestTable` | pkg/detector/detector.go:230-254 | read as a table of manifests, the first manifest found fixes the backend language, and Node.js is reported exactly when there is no manifest |
| `Detector.CheckPrismaPostgres` | pkg/detector/detector.go:409-417 | true exactly when `prisma/schema.prisma` exists and contains `provider = "postgresql"` |
| `Detector.FromPackageJson` | pkg/detector/detector.go:347-371 | document store iff a Mongo package is present and the schema is not PostgreSQL; Redis iff a Redis package is present; Postgres iff a Postgres package is present and the schema is PostgreSQL. Flags are only turned on; MySQL is untouched. |
| `Detector.FromTextFile` | pkg/detector/detector.go:373-403 | each flag is turned on iff the root file exists and mentions one of that family's module names; MySQL is untouched |
| `Detector.DetectMiddleware` | pkg/detector/detector.go:344-406 | each flag holds iff one of the three root sources turns it on, as a full characterization. MySQL is never set. |
| `Detector.NoSchemaNoPackagePostgres` | pkg/detector/detector.go:365-370 | without a Prisma schema, `package.json` never sets Postgres, not even for `pg` |
| `Detector.PrismaClientAloneSetsNeither` | pkg/detector/detector.go:352-370 | `@prisma/client` with a PostgreSQL schema and no `pg`/`postgres`/`prisma`-prefixed dependency sets neither the document store nor Postgres |
| `Detector.PrismaClientWithoutSchemaIsMongo` | pkg/detector/detector.go:352-358 | `@prisma/client` without a schema counts as the document store |
| `Detector.Relocate` | pkg/detector/detector.go:134 | a stack found in a subdirectory reports its Dockerfile as `dir/path`, or just `dir` when it had none. At the root it is unchanged. Nothing else about the stack changes. |
| `Detector.FirstHit` | pkg/detector/detector.go:129-139 | a side is found iff some candidate directory's probe finds it; the first such directory wins, relocated, and scanning stops there |
| `Detector.TypeOf` | pkg/detector/detector.go:96-106 | fullstack, frontend, backend or unknown, each exactly for its combination of found stacks |
| `Detector.Detect` | pkg/detector/detector.go:82-120 | always succeeds. It names the project by the root's base name and stamps it `"0"`. The type follows from the stacks. The root stacks are kept whenever either side is found at the root; otherwise both come from the monorepo fallback. The middleware is the root middleware. |
| `Detector.EmptyTreeIsUnknown` | pkg/detector/detector.go:82-120 | an empty tree gives an unknown project with no stacks and no middleware |
| `Detector.ExistsAbove` | pkg/detector/detector.go:456-459 | a file below a directory makes that directory exist |
| `Detector.RootFindsNothing` | pkg/detector/detector.go:86-92 | without any root marker file, neither root detection finds anything, so the fallback runs |
| `Detector.MonorepoFrontendFirst` | pkg/detector/detector.go:129-139 | a frontend in `frontend/` is the monorepo frontend |
| `Detector.MonorepoBackendFirst` | pkg/detector/detector.go:142-152 | `backend/go.mod` makes `backend/` the monorepo backend, a gin one with its Dockerfile under `backend` |
| `Detector.MonorepoFullstack` | pkg/detector/detector.go:89-152 | with nothing at the root, a frontend in `frontend/` and `backend/go.mod` give a full-stack project with both Dockerfiles under their directories |
| `Configuration.ZeroExpiryIsExpired` | pkg/config/config.go:106-113 | an unset expiry means not logged in, and expired at every real clock reading |
| `Configuration.Clear` | pkg/config/config.go:203-205 | the result is logged out with the zero authentication block; the MCP and skills settings are kept |
| `Configuration.ClearIdempotent` | pkg/config/config.go:203-205 | clearing twice is clearing once |
| `Configuration.Default` | pkg/config/config.go:208-224 | not logged in; the production API; no skills installed; the project's repository `ChronoAIProject/chrono-cli` at `main` as skills source; the install directory `.chrono/skills` under the home directory |
| `Configuration.WithMarkdownExtension` | pkg/config/config.go:238-241 | the name ends in `.md`; an existing extension is not doubled |
| `Configuration.EffectiveRef` | pkg/config/config.go:233-236 | the configured ref, or `main` when unset; never empty |
| `Configuration.SkillsGitHubURL` | pkg/config/config.go:227-247 | empty exactly when no repository is configured. Otherwise it is the raw-content host, the repository, the ref (`main` when unset), `/skills/` and the skill name with `.md` added unless already present. |
| `Configuration.SkillsURLExtensionInsensitive` | pkg/config/config.go:238-246 | naming a skill with or without `.md` gives the same address |
| `Configuration.SkillsURLDefaultRef` | pkg/config/config.go:233-246 | an unset ref and an explicit `main` give the same address |
| `Configuration.DefaultSkillsSource` | pkg/config/config.go:208-247 | a fresh configuration is already cleared, and a skill's address under it is in `ChronoAIProject/chrono-cli` at `main` |
| `InitCmd.ResolveApiUrl` | cmd/init.go:64-77 | the flag, else the environment value, else the default URL. The result is never empty, so the error is unreachable. |
| `InitCmd.InitialConfigContent` | cmd/init.go:92-100 | starts with the header and the chosen server URL; ends with the `skills:` block: `install_dir: .chrono/skills`, then `installed: []` |
| `InitCmd.InstalledBlock` | cmd/init.go:302-307 | the list is the header followed by one entry per skill, in input order |
| `InitCmd.BlockListsEverySkill` | cmd/init.go:303-307 | every skill's entry occurs in the list |
| `InitCmd.EntryHasUrlLine` | cmd/init.go:305 | each entry carries the line `url: <server>/skills/<name>/SKILL.md` |
| `InitCmd.ReplaceOnlyPlaceholder` | cmd/init.go:315-324 | when the text before a placeholder holds no `[`, that placeholder is the one the list replaces, and the text around it is kept |
| `InitCmd.InitThenRecord` | cmd/init.go:92-124 | recording skills in the configuration `init` wrote replaces its `installed: []` with the list and keeps everything else, for any server URL without a `[` |
| `InitCmd.RewriteInstalled` | cmd/init.go:315-324 | the new text contains the list. With a placeholder, the text before its first occurrence is kept, the list takes its place and the rest follows. Without one, the text minus one trailing newline, a newline and the list. |
| `InitCmd.UpdateInstalledSkills` | cmd/init.go:300-332 | fails exactly when the configuration cannot be read. Otherwise it is the rewrite with the list, and it contains every skill's URL line. |
| `InitCmd.MissingItems` | cmd/init.go:353-359 | the items not yet mentioned anywhere in the file, `.chrono/` before `.cursor/skills/` |
| `InitCmd.ItemLines` | cmd/init.go:372-374 | every item appears on a line of its own; the text is the items joined by newlines, with a final newline |
| `InitCmd.ItemLinesSplit` | cmd/init.go:372-374 | when no item holds a newline, splitting the appended text at newlines gives back the items, then an empty last piece |
| `InitCmd.GitIgnoreUpdate` | cmd/init.go:342-379 | nothing is written exactly when the file cannot be read or both items are present. Otherwise the old text is kept as a prefix and both items are present. After the old text come a blank line (unless the file was empty), the `# Chrono CLI` header and the missing items, one per line. |
| `InitCmd.GitIgnoreIdempotent` | cmd/init.go:353-364 | updating the updated file writes nothing |
| `InitCmd.GitIgnoreFromNothing` | cmd/init.go:366-374 | a missing file gets the header without a leading blank line, then both items |
| `McpSetup.Min` | cmd/mcp_setup.go:541-546 | the smaller of the two |
| `McpSetup.TokenPreview` | cmd/mcp_setup.go:63 | the echoed prefix of a supplied token is at most ten characters, and is the whole token when shorter |
| `McpSetup.CreatedTokenPreviewAsWritten` | cmd/mcp_setup.go:97 | the echo of a created token succeeds exactly when it has at least ten characters |
| `McpSetup.ShortCreatedTokenPanics` | cmd/mcp_setup.go:63-97 | a three-character created token breaks the echo, while the bounded preview shows all of it |
| `McpSetup.PlanToken` | cmd/mcp_setup.go:58-99 | a supplied token is used without any login check; otherwise it fails exactly when not logged in or expired, and creates a token with the stored access token |
| `McpSetup.NormalizeEditor` | cmd/mcp_setup.go:384-385 | the normalised name holds no `-`, no `_` and no capital letter |
| `McpSetup.MapEditorToIndexAsWritten` | cmd/mcp_setup.go:382-399 | the switch as written yields -1 or a valid editor index |
| `McpSetup.MapEditorToIndex` | cmd/mcp_setup.go:382-399 | the index is valid or -1. After normalisation, Cursor is chosen exactly for `cursor`, `cursoride`; Claude exactly for `claude`, `claudecode`; Codex exactly for `codex`; Gemini exactly for `gemini`, `gemicli`, `geminicli`. Every other name gives -1. |
| `McpSetup.WithoutConcat` | cmd/mcp_setup.go:384-385 | removing a character distributes over concatenation |
| `McpSetup.NormalizeHyphenated` | cmd/mcp_setup.go:384-385 | a hyphen between two normalised words disappears |
| `McpSetup.GeminiCliRejectedAsWritten` | cmd/mcp_setup.go:394 | `gemini-cli`, in any capitalisation, is rejected as written and selects Gemini CLI once corrected |
| `McpSetup.CorrectedMappingExtends` | cmd/mcp_setup.go:387-398 | wherever the written switch finds an editor, the corrected one finds the same; they differ only on `geminicli` |
| `McpSetup.NormalizeIdempotent` | cmd/mcp_setup.go:384-385 | normalising a normalised name changes nothing |
| `McpSetup.EditorSpellingInsensitive` | cmd/mcp_setup.go:382-399 | an editor name and its normalised form select the same editor |
| `McpSetup.NormalizeAsRemoval` | cmd/mcp_setup.go:384-385 | normalising is lower-casing and then removing every `-` and `_` |
| `McpSetup.NormalizeCaseInsensitive` | cmd/mcp_setup.go:384-385 | lower-casing a name first does not change its normalised form |
| `McpSetup.NormalizeIgnoresSeparator` | cmd/mcp_setup.go:384-385 | a `-` or `_` inserted anywhere does not change the normalised form |
| `McpSetup.NormalizeTwoWords` | cmd/mcp_setup.go:384-385 | two words of any capitalisation, with or without a separator between them, normalise to the two words lower-cased and joined |
| `McpSetup.ClaudeCodeSpellings` | cmd/mcp_setup.go:382-399 | `claude` and `code` in any capitalisation, joined by `-`, `_` or nothing (for example `Claude-Code`, `claude_code`, `CLAUDECODE`), select Claude Code |
| `McpSetup.GetEditorName` | cmd/mcp_setup.go:402-413 | the display name for a valid index; `Unknown` exactly for an invalid one |
| `McpSetup.ResolveEditor` | cmd/mcp_setup.go:101-115 | on the corrected mapping: no editor argument means the interactive prompt; an unknown name is an error exactly when the mapping gives -1; otherwise a valid index with a real display name |
| `McpSetup.ResolveEditorAsWritten` | cmd/mcp_setup.go:101-115 | the same resolution on the switch as written: an error exactly when the written mapping gives -1 |
| `McpSetup.ResolutionsDifferOnGeminiCli` | cmd/mcp_setup.go:108-112 | `gemini-cli` in any capitalisation is an unknown editor as written and Gemini CLI once corrected; wherever the written resolution succeeds, the corrected one gives the same answer |
| `McpSetup.FlagBeatsArgument` | cmd/mcp_setup.go:102-105 | the `--editor` flag overrides a positional argument |
| `McpSetup.ServerEntry` | cmd/mcp_setup.go:488-493 | the entry holds `url` = server + `/mcp` and a bearer `Authorization` header, nothing else |
| `McpSetup.ExistingServers` | cmd/mcp_setup.go:469-485 | an object document's `mcpServers` object gives exactly its servers. A missing, unparsable or ill-typed file gives none. |
| `McpSetup.UpsertServer` | cmd/mcp_setup.go:487-493 | our server is added or replaced; every other server is kept |
| `McpSetup.MergeServersAsWritten` | cmd/mcp_setup.go:464-507 | the document written back holds only `mcpServers`, with our server upserted |
| `McpSetup.MergeDropsOtherSettings` | cmd/mcp_setup.go:464-507 | a settings file with a `theme` loses it |
| `McpSetup.MergeServers` | cmd/mcp_setup.go:462-507 | `mcpServers` gets our server upserted, and every other top-level setting of an object document is kept |
| `McpSetup.MergeThenRead` | cmd/mcp_setup.go:464-507 | reading back the merged document gives the existing servers with ours upserted; every other server is kept with its settings |
| `McpSetup.MergeIntoNothing` | cmd/mcp_setup.go:469-485 | a missing, unparsable or empty file gets exactly the `developer-platform` server, under both the corrected merge and the merge as written |
| `McpSetup.MergeIdempotent` | cmd/mcp_setup.go:464-507 | with the corrected merge, merging the merged document again changes nothing |
| `McpSetup.MergeAsWrittenIdempotent` | cmd/mcp_setup.go:464-507 | with the merge as written, merging the written document again changes nothing |
| `McpSetup.MergesAgreeOnServers` | cmd/mcp_setup.go:464-507 | both merges write the same servers, and the same document when the file had no other settings |
| `Login.FormatUserCode` | cmd/login.go:144-149 | an eight-character code becomes the two halves of four joined by `-`, nine characters; any other code is unchanged |
| `Login.UngroupFormat` | cmd/login.go:144-147 | dropping the inserted hyphen recovers the eight-character code |
| `Login.FormatUngroup` | cmd/login.go:144-147 | every grouped display is the display of the code read back from it |
| `Login.FormatIdempotent` | cmd/login.go:144-149 | formatting a displayed code again changes nothing, since a grouped code has nine characters |
| `Login.PollInterval` | cmd/login.go:79-82 | the period is the requested interval, but never below five seconds |
| `Login.StoreCredentials` | cmd/login.go:116-119 | the token, an expiry `expiresIn` seconds after the answer, and the user's id and email are stored; the rest of the configuration is kept |
| `Login.PollStep` | cmd/login.go:93-120 | a failed request fails unless still pending. Pending and `slow_down` keep polling, `slow_down` at the base period plus five seconds. Any other status authenticates with the stored credentials. |
| `Login.SlowDownNotCumulative` | cmd/login.go:106-108 | over any series of answers, a loop that is still polling uses the base period or the base period plus five seconds |
| `Login.RepeatedSlowDown` | cmd/login.go:104-109 | any run of `slow_down` answers leaves the period at the base plus five seconds |
| `Login.PendingKeepsPolling` | cmd/login.go:94-99 | a pending answer keeps polling at the current period, even when the request failed |
| `Login.AuthenticatedIsLoggedIn` | cmd/login.go:33-37 | after a successful login with a token valid for a positive time, `login` stops at once |
| `Login.EmptyTokenNotLoggedIn` | cmd/login.go:112-119 | an answer with another status but no token is stored as a success and leaves the session logged out |
| `Login.ClassifyStatus` | cmd/login.go:213-228 | not logged in, session expired, or logged in, each as an iff. Logged in coincides with the `login` shortcut. |
| `Login.Logout` | cmd/login.go:166-190 | nothing is saved when not logged in. Otherwise it saves the cleared configuration: logged out, with the zero authentication block and the other settings kept. |
| `Login.LogoutThenStatus` | cmd/login.go:166-190 | after logout, status reports not logged in, the shortcut is off, and a second logout saves nothing |
| `Version.FullVersion` | cmd/version.go:13-21 | starts with the version. Equals it when both values are `unknown`. Ends with the commit line when a commit is given, else with the build-time line when one is given. |
| `Version.VersionLines` | cmd/version.go:14-20 | the version is the first line |
| `Version.FullVersionIsJoinedLines` | cmd/version.go:13-21 | the text is its lines joined by newlines: version, build time if supplied, commit if supplied |
| `Version.FullVersionSplits` | cmd/version.go:13-21 | when no value contains a newline, splitting the text at newlines recovers exactly those lines, build time before commit |

## Left out

- I/O is replaced by values: reading and writing files, directory creation, HTTP calls, the browser launch, prompts and printing. A file read is an `Option` or a `ReadOutcome`; a directory tree is a `FileTree`.
- The `login` loop's ticker, its timeout channel and `select` are left out, as concurrency and timers; the model covers each poll's decision and the period arithmetic.
- Clock readings are parameters. The `installed_at` RFC 3339 stamps are given as strings, one per skill; their formatting is not modelled.
- `installAllSkills`, the skill download helpers and `testMCPConnection` are network code and are not part of this model.
- Encoding and decoding YAML and JSON are not modelled. JSON documents are a `Json` value; a file that does not decode is `Unparsable`.
- Go's JSON decoding matches struct keys case-insensitively, so a `MCPServers` key also fills the servers field; that is not modelled.
- Strings are ASCII: `ToLower` and `TrimSpace` act on ASCII letters and white space only.
- `bufio.Scanner`'s 64 KiB line limit in `detectEnvVars` is not modelled; lines of any length are harvested.
- `filepath.Join` is modelled for the clean relative paths the detector builds; path cleaning of `..` and duplicate slashes is not.
- `Default`: the home directory is a parameter; the fallback to the temporary directory when it cannot be determined is not modelled.
- `time.Duration` overflow for very large intervals or lifetimes is not modelled; integers are unbounded.
- `runStatus`'s detail lines (time until expiry, rounded to minutes) are output only and not modelled.
- The detector never returns an error from `Detect` and never fails on an unreadable root; the model follows the code.
- `@prisma/client` alone with a PostgreSQL schema sets neither the document store nor Postgres; the model follows the code (`Detector.PrismaClientAloneSetsNeither`).
- `McpSetup.ResolveEditor` resolves the editor with the corrected mapping, so `gemini-cli` selects Gemini CLI; the command as written rejects it, which `McpSetup.ResolveEditorAsWritten` models (see Findings).
- In the monorepo fallback, a stack without a Dockerfile reports the directory itself as its Dockerfile path, because `filepath.Join(dir, "")` is `dir`.

## Findings

| source | as written | input that shows it | evidently intended | confidence | as-written member | corrected member |
|---|---|---|---|---|---|---|
| cmd/mcp_setup.go:382-399 | after every `-` is removed, the switch compares against `gemini-cli` (unreachable) and `gemicli` | editor `gemini-cli` normalises to `geminicli` and is rejected as an unknown editor | `gemini-cli` selects Gemini CLI, as `claude-code` selects Claude Code | not executed; high | `McpSetup.MapEditorToIndexAsWritten` and `McpSetup.ResolveEditorAsWritten` (shown by `McpSetup.GeminiCliRejectedAsWritten` and `McpSetup.ResolutionsDifferOnGeminiCli`) | `McpSetup.MapEditorToIndex` and `McpSetup.ResolveEditor` |
| cmd/mcp_setup.go:95-97 | the created token is echoed as `token[:10]` with no bound check | a created token `abc`: the slice is out of range and the command panics | the bounded preview used for a supplied token at line 63 | not executed; medium (depends on the server's token length) | `McpSetup.CreatedTokenPreviewAsWritten` (shown by `McpSetup.ShortCreatedTokenPanics`) | `McpSetup.TokenPreview` |
| cmd/mcp_setup.go:464-507 | the settings file is decoded into a record holding only `mcpServers` and written back from it | `{"theme": "Dark", "mcpServers": {}}` is written back without `theme` | a merge that keeps the editor's other settings | not executed; medium | `McpSetup.MergeServersAsWritten` (shown by `McpSetup.MergeDropsOtherSettings`) | `McpSetup.MergeServers` |
