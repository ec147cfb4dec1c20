/** The CLI's persisted configuration: authentication state, the MCP server
    settings and the skills source. Reading and writing the YAML file is not
    modelled; time is an explicit parameter. */
module Configuration {
  import opened Strings
  import opened FileSystem

  /** Seconds since Go's zero time (January 1, year 1, UTC); 0 is the zero
      time, any real clock reading is positive, and an instant before the
      zero time is negative. */
  type Instant = int

  const ZeroTime: Instant := 0

  datatype AuthConfig = AuthConfig(
    accessToken: string,
    refreshToken: string,
    tokenExpiry: Instant,
    userID: string,
    email: string)

  /** The zero value of the authentication block. */
  const EmptyAuth := AuthConfig("", "", ZeroTime, "", "")

  datatype McpConfig = McpConfig(serverURL: string, apiToken: string)

  datatype InstalledSkill = InstalledSkill(name: string, url: string, installedAt: Instant)

  datatype SkillsConfig = SkillsConfig(
    installDir: string,
    installed: seq<InstalledSkill>,
    gitHubRepo: string,
    gitHubRef: string)

  datatype Config = Config(auth: AuthConfig, mcp: McpConfig, skills: SkillsConfig)

  const ConfigDir := ".chrono"
  const SkillsDir := "skills"
  const DefaultBaseURL := "https://platform.aelf.dev/api/v1"
  const DefaultSkillsRepo := "ChronoAIProject/chrono-cli"
  const DefaultRef := "main"
  const RawContentHost := "https://raw.githubusercontent.com/"

  /** Logged in: an access token and a set (non-zero) expiry. */
  predicate IsLoggedIn(c: Config) {
    c.auth.accessToken != "" && c.auth.tokenExpiry != ZeroTime
  }

  /** The token's expiry lies strictly before `now`. */
  predicate IsTokenExpired(c: Config, now: Instant) {
    c.auth.tokenExpiry < now
  }

  /** A zero expiry counts as expired at every real clock reading. */
  lemma ZeroExpiryIsExpired(c: Config, now: Instant)
    requires c.auth.tokenExpiry == ZeroTime && now > 0
    ensures IsTokenExpired(c, now)
    ensures !IsLoggedIn(c)
  {
  }

  /** Clear: forgets the whole authentication block and keeps everything else. */
  function Clear(c: Config): (r: Config)
    ensures !IsLoggedIn(r)
    ensures r.auth.accessToken == "" && r.auth.refreshToken == "" && r.auth.email == ""
    ensures r.auth == EmptyAuth
    ensures r.mcp == c.mcp && r.skills == c.skills
  {
    c.(auth := EmptyAuth)
  }

  /** Clearing twice is clearing once. */
  lemma ClearIdempotent(c: Config)
    ensures Clear(Clear(c)) == Clear(c)
  {
  }

  /** Default: not logged in, the production API, no skills installed, the
      project's own repository and branch as the skills source, and the
      skills directory under the home directory. */
  function Default(homeDir: string): (r: Config)
    ensures !IsLoggedIn(r) && r.auth == EmptyAuth
    ensures r.mcp.serverURL == DefaultBaseURL && r.mcp.apiToken == ""
    ensures r.skills.installed == []
    ensures HasGitHubSkills(r) && r.skills.gitHubRepo == DefaultSkillsRepo && r.skills.gitHubRef == DefaultRef
    ensures HasSuffix(r.skills.installDir, ".chrono/skills")
    ensures homeDir != "" ==> HasPrefix(r.skills.installDir, homeDir + "/")
  {
    var dir := Join(Join(homeDir, ConfigDir), SkillsDir);
    assert homeDir != "" ==> dir == homeDir + "/" + ".chrono/skills";
    Config(EmptyAuth, McpConfig(DefaultBaseURL, ""),
           SkillsConfig(dir, [], DefaultSkillsRepo, DefaultRef))
  }

  /** A skills source is configured. */
  predicate HasGitHubSkills(c: Config) {
    c.skills.gitHubRepo != ""
  }

  /** A skill file name carries the `.md` extension. */
  function WithMarkdownExtension(name: string): (r: string)
    ensures HasSuffix(r, ".md")
    ensures HasSuffix(name, ".md") ==> r == name
    ensures !HasSuffix(name, ".md") ==> r == name + ".md"
  {
    if HasSuffix(name, ".md") then name
    else
      var r := name + ".md";
      assert r[|r| - 3..] == ".md";
      r
  }

  /** The ref the source is fetched at: the configured one, `main` when unset. */
  function EffectiveRef(c: Config): (r: string)
    ensures r != ""
    ensures c.skills.gitHubRef != "" ==> r == c.skills.gitHubRef
  {
    if c.skills.gitHubRef == "" then DefaultRef else c.skills.gitHubRef
  }

  /** GetSkillsGitHubURL: the raw-content address of a skill file; empty
      exactly when no repository is configured. */
  function SkillsGitHubURL(c: Config, skillName: string): (r: string)
    ensures r == "" <==> !HasGitHubSkills(c)
    ensures HasGitHubSkills(c) ==>
              && HasPrefix(r, RawContentHost + c.skills.gitHubRepo + "/" + EffectiveRef(c) + "/skills/")
              && HasSuffix(r, ".md")
    ensures HasGitHubSkills(c) ==>
              r == RawContentHost + c.skills.gitHubRepo + "/" + EffectiveRef(c) + "/skills/" + WithMarkdownExtension(skillName)
  {
    if c.skills.gitHubRepo == "" then ""
    else
      var prefix := RawContentHost + c.skills.gitHubRepo + "/" + EffectiveRef(c) + "/skills/";
      var file := WithMarkdownExtension(skillName);
      var r := prefix + file;
      assert r[..|prefix|] == prefix;
      assert r[|r| - 3..] == file[|file| - 3..];
      r
  }

  /** Naming a skill with or without its `.md` extension gives the same address. */
  lemma SkillsURLExtensionInsensitive(c: Config, name: string)
    ensures !HasSuffix(name, ".md") ==> SkillsGitHubURL(c, name + ".md") == SkillsGitHubURL(c, name)
    ensures SkillsGitHubURL(c, WithMarkdownExtension(name)) == SkillsGitHubURL(c, name)
  {
    var n := name + ".md";
    assert n[|n| - 3..] == ".md";
  }

  /** An unset ref and an explicit `main` give the same address. */
  lemma SkillsURLDefaultRef(c: Config, name: string)
    requires c.skills.gitHubRef == ""
    ensures SkillsGitHubURL(c, name) == SkillsGitHubURL(c.(skills := c.skills.(gitHubRef := DefaultRef)), name)
  {
  }

  /** A fresh configuration is already cleared, and its skills are fetched
      from the project's own repository at `main`. */
  lemma DefaultSkillsSource(homeDir: string, name: string)
    ensures Clear(Default(homeDir)) == Default(homeDir)
    ensures SkillsGitHubURL(Default(homeDir), name)
              == RawContentHost + DefaultSkillsRepo + "/" + DefaultRef + "/skills/" + WithMarkdownExtension(name)
  {
  }
}
