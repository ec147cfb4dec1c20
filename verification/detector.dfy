/** The project detector: classifies a directory tree into a project type,
    an optional frontend and backend tech stack, and four middleware flags,
    by string matching and first-match priority lists over a few well-known
    files. Paths are relative to the scanned root, which is "". */
module Detector {
  import opened Wrappers
  import opened Strings
  import opened FileSystem
  import opened Manifest

  // ---------------------------------------------------------------------
  // Data model

  datatype ProjectType = Frontend | Backend | Fullstack | Unknown {
    /** The value written to the metadata file. */
    function Name(): string {
      match this
      case Frontend => "frontend"
      case Backend => "backend"
      case Fullstack => "fullstack"
      case Unknown => "unknown"
    }
  }

  /** One side (frontend or backend) of a project. */
  datatype TechStack = TechStack(
    framework: string,
    language: string,
    version: string,
    port: int,
    hasDockerfile: bool,
    dockerfile: string,
    buildCmd: string,
    startCmd: string,
    envVars: map<string, string>)

  datatype Middleware = Middleware(mongoDB: bool, redis: bool, postgres: bool, mySQL: bool)

  const NoMiddleware := Middleware(false, false, false, false)

  datatype ProjectMetadata = ProjectMetadata(name: string, projectType: ProjectType, detectedAt: string)

  datatype TechStackMap = TechStackMap(frontend: Option<TechStack>, backend: Option<TechStack>)

  datatype PlatformInfo = PlatformInfo(createdBy: string, template: string)

  datatype Metadata = Metadata(
    project: ProjectMetadata,
    techStack: TechStackMap,
    middleware: Middleware,
    platform: PlatformInfo)

  /** The detection timestamp is a fixed placeholder: the decimal text of 0. */
  const Timestamp := "0"

  // ---------------------------------------------------------------------
  // Dockerfile lookup

  /** Shallow validity: a `FROM` and one of `EXPOSE`, `CMD`, `ENTRYPOINT`
      anywhere in the text, case-sensitive, comments included. */
  predicate IsValidDockerfile(content: string) {
    && Contains(content, "FROM")
    && (Contains(content, "EXPOSE") || Contains(content, "CMD") || Contains(content, "ENTRYPOINT"))
  }

  /** The candidate `path` under `dir` exists, can be read and is valid. */
  predicate DockerfileAt(t: FileTree, dir: string, path: string) {
    var full := Join(dir, path);
    Exists(t, full) && ReadFile(t, full).Some? && IsValidDockerfile(ReadFile(t, full).value)
  }

  /** findDockerfile: the first candidate (as given, not joined with `dir`)
      that is a valid Dockerfile, with true; ("", false) when none is. */
  function FindDockerfile(t: FileTree, dir: string, paths: seq<string>): (r: (string, bool))
    ensures r.1 <==> exists i :: 0 <= i < |paths| && DockerfileAt(t, dir, paths[i])
    ensures r.1 ==> exists i :: 0 <= i < |paths| && r.0 == paths[i] && DockerfileAt(t, dir, paths[i])
                                && forall j :: 0 <= j < i ==> !DockerfileAt(t, dir, paths[j])
    ensures !r.1 ==> r.0 == ""
  {
    if paths == [] then ("", false)
    else if DockerfileAt(t, dir, paths[0]) then (paths[0], true)
    else
      var r := FindDockerfile(t, dir, paths[1..]);
      assert forall i :: 1 <= i < |paths| ==> paths[i] == paths[1..][i - 1];
      r
  }

  /** A commented-out `FROM` still counts: the check is on raw substrings. */
  lemma CommentedFromCounts(rest: string)
    requires Contains(rest, "CMD")
    ensures IsValidDockerfile("# FROM golang:1.22\n" + rest)
  {
    var head := "# FROM golang:1.22\n";
    assert OccursAt(head, "FROM", 2);
    ContainsInLeft(head, rest, "FROM");
    ContainsInRight(head, rest, "CMD");
  }

  // ---------------------------------------------------------------------
  // Environment-key harvesting

  /** The only value ever stored for an environment variable. */
  const Placeholder := "[VALUE]"

  /** A key whose lower-case form mentions a secret is never reported. */
  predicate IsSecretName(key: string) {
    var lower := ToLower(key);
    Contains(lower, "secret") || Contains(lower, "password") || Contains(lower, "key")
  }

  /** The key a line declares: blank lines, `#` comments and lines without
      '=' declare none; otherwise the trimmed text before the first '='. */
  function DeclaredKey(line: string): (r: Option<string>)
    ensures r.Some? <==> TrimSpace(line) != "" && !HasPrefix(TrimSpace(line), "#") && '=' in TrimSpace(line)
    ensures r.Some? ==>
              exists i :: 0 <= i < |TrimSpace(line)| && TrimSpace(line)[i] == '='
                          && '=' !in TrimSpace(line)[..i] && r.value == TrimSpace(TrimSpace(line)[..i])
  {
    var t := TrimSpace(line);
    if t == "" || HasPrefix(t, "#") then None
    else
      match Cut(t, '=')
      case None => None
      case Some((key, rest)) =>
        assert t[..|key|] == key && t[|key|] == '=';
        Some(TrimSpace(key))
  }

  /** The key a line contributes to the result: its declared key, unless
      that key looks like a secret. */
  function HarvestedKey(line: string): (r: Option<string>)
    ensures r.Some? ==> !IsSecretName(r.value) && DeclaredKey(line) == r
    ensures DeclaredKey(line).Some? && !IsSecretName(DeclaredKey(line).value) ==> r == DeclaredKey(line)
    ensures DeclaredKey(line).None? ==> r.None?
  {
    match DeclaredKey(line)
    case None => None
    case Some(key) => if IsSecretName(key) then None else Some(key)
  }

  /** All values of an environment map are the placeholder. */
  predicate AllPlaceholders(m: map<string, string>) {
    forall k :: k in m ==> m[k] == Placeholder
  }

  /** The key each line of a file contributes, in order. */
  function LineKeys(content: string): (keys: seq<Option<string>>)
    ensures |keys| == |Split(content, '\n')|
    ensures forall i :: 0 <= i < |keys| ==> keys[i] == HarvestedKey(Split(content, '\n')[i])
    ensures forall k :: Some(k) in keys ==> !IsSecretName(k)
  {
    var lines := Split(content, '\n');
    seq(|lines|, i requires 0 <= i < |lines| => HarvestedKey(lines[i]))
  }

  /** The keys of one file, in order, added to `acc`. */
  function AddKeys(keys: seq<Option<string>>, acc: map<string, string>): (r: map<string, string>)
    ensures forall k :: k in r <==> k in acc || Some(k) in keys
    ensures AllPlaceholders(acc) ==> AllPlaceholders(r)
  {
    if keys == [] then acc
    else
      var acc' := match keys[0]
                  case Some(k) => acc[k := Placeholder]
                  case None => acc;
      var r := AddKeys(keys[1..], acc');
      assert forall x :: x in keys <==> x == keys[0] || x in keys[1..];
      r
  }

  /** The keys of the candidate file `path` under `dir`; none when it
      cannot be read. */
  function FileKeys(t: FileTree, dir: string, path: string): (keys: seq<Option<string>>)
    ensures forall k :: Some(k) in keys ==> !IsSecretName(k)
  {
    match ReadFile(t, Join(dir, path))
    case Some(content) => LineKeys(content)
    case None => []
  }

  /** `key` is harvested from the file `path` under `dir`. */
  predicate KeyInFile(t: FileTree, dir: string, path: string, key: string) {
    Some(key) in FileKeys(t, dir, path)
  }

  /** The files' keys in order, added to `acc`. */
  function AddFileKeys(files: seq<seq<Option<string>>>, acc: map<string, string>): (r: map<string, string>)
    ensures forall k :: k in r <==> k in acc || exists i :: 0 <= i < |files| && Some(k) in files[i]
    ensures AllPlaceholders(acc) ==> AllPlaceholders(r)
  {
    if files == [] then acc
    else
      var r := AddFileKeys(files[1..], AddKeys(files[0], acc));
      assert forall i :: 1 <= i < |files| ==> files[i] == files[1..][i - 1];
      r
  }

  /** detectEnvVars: only the placeholder is stored, never a secret-looking
      key, and a key is present exactly when some candidate file declares it.
      Candidate files are read in order and absent ones skipped. */
  function DetectEnvVars(t: FileTree, dir: string, paths: seq<string>): (r: map<string, string>)
    ensures AllPlaceholders(r)
    ensures forall k :: k in r ==> !IsSecretName(k)
    ensures forall k :: k in r <==> exists i :: 0 <= i < |paths| && KeyInFile(t, dir, paths[i], k)
  {
    var files := seq(|paths|, i requires 0 <= i < |paths| => FileKeys(t, dir, paths[i]));
    FilesDeclare(t, dir, paths, files);
    AddFileKeys(files, map[])
  }

  /** A key occurs among the files' keys exactly when some candidate file
      declares it. */
  lemma FilesDeclare(t: FileTree, dir: string, paths: seq<string>, files: seq<seq<Option<string>>>)
    requires |files| == |paths|
    requires forall i :: 0 <= i < |paths| ==> files[i] == FileKeys(t, dir, paths[i])
    ensures forall k :: (exists i :: 0 <= i < |files| && Some(k) in files[i])
                        <==> exists i :: 0 <= i < |paths| && KeyInFile(t, dir, paths[i], k)
  {
    forall k
      ensures (exists i :: 0 <= i < |files| && Some(k) in files[i])
              <==> exists i :: 0 <= i < |paths| && KeyInFile(t, dir, paths[i], k)
    {
      if exists i :: 0 <= i < |files| && Some(k) in files[i] {
        var i :| 0 <= i < |files| && Some(k) in files[i];
        assert KeyInFile(t, dir, paths[i], k);
      }
      if exists i :: 0 <= i < |paths| && KeyInFile(t, dir, paths[i], k) {
        var i :| 0 <= i < |paths| && KeyInFile(t, dir, paths[i], k);
        assert Some(k) in files[i];
      }
    }
  }

  /** A later candidate file only adds keys. */
  lemma EnvVarsAccumulate(t: FileTree, dir: string, paths: seq<string>, more: seq<string>)
    ensures DetectEnvVars(t, dir, paths).Keys <= DetectEnvVars(t, dir, paths + more).Keys
  {
    forall k | k in DetectEnvVars(t, dir, paths)
      ensures k in DetectEnvVars(t, dir, paths + more)
    {
      var i :| 0 <= i < |paths| && KeyInFile(t, dir, paths[i], k);
      assert (paths + more)[i] == paths[i];
    }
  }

  // ---------------------------------------------------------------------
  // Frontend

  /** A framework and its default port, chosen when any marker dependency is present. */
  datatype FrameworkRule = FrameworkRule(markers: seq<string>, framework: string, port: int)

  /** The frontend table, in priority order. */
  const FrontendRules: seq<FrameworkRule> := [
    FrameworkRule(["next"], "nextjs", 3000),
    FrameworkRule(["react", "react-dom"], "react", 3000),
    FrameworkRule(["vue"], "vue", 5173),
    FrameworkRule(["vite"], "vite", 5173),
    FrameworkRule(["svelte"], "svelte", 5173)
  ]

  const TypeScriptMarkers := ["typescript", "@types/react", "@types/node"]
  const FrontendDockerfiles := ["frontend/Dockerfile", "Dockerfile", "Dockerfile.frontend"]
  const FrontendEnvFiles := ["frontend/.env", "frontend/.env.local", ".env", ".env.local"]

  predicate RuleMatches(deps: Deps, rule: FrameworkRule) {
    HasAnyDep(deps, rule.markers)
  }

  /** The index of the first rule that matches. */
  function FirstMatch(deps: Deps, rules: seq<FrameworkRule>): (r: Option<nat>)
    ensures r.Some? ==> r.value < |rules| && RuleMatches(deps, rules[r.value])
    ensures r.Some? ==> forall j :: 0 <= j < r.value ==> !RuleMatches(deps, rules[j])
    ensures r.None? ==> forall j :: 0 <= j < |rules| ==> !RuleMatches(deps, rules[j])
  {
    if rules == [] then None
    else if RuleMatches(deps, rules[0]) then Some(0)
    else
      match FirstMatch(deps, rules[1..])
      case None => None
      case Some(i) => Some(i + 1)
  }

  /** The dependencies declared by `package.json` under `dir`, if it can be read. */
  function PackageDeps(t: FileTree, dir: string): (r: Option<Deps>)
    ensures r.Some? <==> Join(dir, "package.json") in t.files
  {
    match ReadFile(t, Join(dir, "package.json"))
    case None => None
    case Some(content) => Some(ParseDependencies(content))
  }

  /** detectFrontend: a stack only when `package.json` is readable and a
      framework of the table is a dependency; the first matching row fixes
      framework and port; TypeScript when one of its markers is present. */
  function DetectFrontend(t: FileTree, dir: string): (r: Option<TechStack>)
    ensures r.Some? <==> PackageDeps(t, dir).Some? && FirstMatch(PackageDeps(t, dir).value, FrontendRules).Some?
    ensures r.Some? ==>
              var deps := PackageDeps(t, dir).value;
              var rule := FrontendRules[FirstMatch(deps, FrontendRules).value];
              && r.value.framework == rule.framework
              && r.value.port == rule.port
              && (r.value.language == "typescript" <==> HasAnyDep(deps, TypeScriptMarkers))
              && (r.value.language == "typescript" || r.value.language == "javascript")
              && r.value.version == ""
              && r.value.buildCmd == "npm run build" && r.value.startCmd == "npm start"
              && (r.value.dockerfile, r.value.hasDockerfile) == FindDockerfile(t, dir, FrontendDockerfiles)
              && r.value.envVars == DetectEnvVars(t, dir, FrontendEnvFiles)
  {
    var pkg := Join(dir, "package.json");
    if !Exists(t, pkg) then None
    else
      match ReadFile(t, pkg)
      case None => None
      case Some(content) =>
        var deps := ParseDependencies(content);
        match FirstMatch(deps, FrontendRules)
        case None => None
        case Some(i) =>
          var language := if HasAnyDep(deps, TypeScriptMarkers) then "typescript" else "javascript";
          var (dockerfile, hasDocker) := FindDockerfile(t, dir, FrontendDockerfiles);
          Some(TechStack(FrontendRules[i].framework, language, "", FrontendRules[i].port,
                         hasDocker, dockerfile, "npm run build", "npm start",
                         DetectEnvVars(t, dir, FrontendEnvFiles)))
  }

  /** The framework the frontend table picks. */
  lemma FrontendTablePriority(deps: Deps)
    ensures HasDep(deps, "next") ==>
              FirstMatch(deps, FrontendRules) == Some(0)
    ensures !HasDep(deps, "next") && HasDep(deps, "react") ==>
              FirstMatch(deps, FrontendRules) == Some(1)
  {
    assert FrontendRules[0].markers == ["next"];
    assert FrontendRules[1].markers[0] == "react";
    if HasDep(deps, "next") {
      assert HasDep(deps, FrontendRules[0].markers[0]);
    } else if HasDep(deps, "react") {
      assert !RuleMatches(deps, FrontendRules[0]);
      assert HasDep(deps, FrontendRules[1].markers[0]);
    }
  }

  /** Priority: `next` wins over every other frontend framework, and `react`
      (or `react-dom`) over `vue`, `vite` and `svelte`. */
  lemma FrontendPriority(t: FileTree, dir: string)
    requires PackageDeps(t, dir).Some?
    ensures HasDep(PackageDeps(t, dir).value, "next") ==>
              DetectFrontend(t, dir).Some? && DetectFrontend(t, dir).value.framework == "nextjs"
    ensures !HasDep(PackageDeps(t, dir).value, "next") && HasDep(PackageDeps(t, dir).value, "react") ==>
              DetectFrontend(t, dir).Some? && DetectFrontend(t, dir).value.framework == "react"
  {
    FrontendTablePriority(PackageDeps(t, dir).value);
  }

  /** The `react-dom` alternative never decides anything: every dependency
      starting with `react-dom` also starts with `react`. */
  lemma ReactDomSubsumed(deps: Deps)
    ensures RuleMatches(deps, FrontendRules[1]) <==> HasDep(deps, "react")
  {
    var markers := FrontendRules[1].markers;
    assert markers == ["react", "react-dom"];
    if RuleMatches(deps, FrontendRules[1]) {
      var i :| 0 <= i < |markers| && HasDep(deps, markers[i]);
      if i == 1 {
        HasDepShorter(deps, "react-dom", "react");
      }
    }
    if HasDep(deps, "react") {
      assert HasDep(deps, markers[0]);
    }
  }

  // ---------------------------------------------------------------------
  // Backend

  const GoDockerfiles := ["backend/Dockerfile", "Dockerfile", "Dockerfile.backend"]
  const PythonDockerfiles := ["backend/Dockerfile", "Dockerfile"]
  const NodeDockerfiles := ["backend/Dockerfile", "api/Dockerfile", "Dockerfile"]
  const BackendEnvFiles := ["backend/.env", ".env"]
  const NodeServerMarkers := ["express", "fastify", "koa"]

  /** detectGoBackend: gin on Go 1.22, port 8080, the binary built under
      `bin/`, the first valid Dockerfile among the Go candidates and the keys
      of the backend `.env` files. */
  function GoBackend(t: FileTree, dir: string): (r: TechStack)
    ensures r.framework == "gin" && r.language == "go" && r.version == "1.22" && r.port == 8080
    ensures (r.dockerfile, r.hasDockerfile) == FindDockerfile(t, dir, GoDockerfiles)
    ensures r.buildCmd == "go build -o bin/server ./cmd/server" && r.startCmd == "./bin/server"
    ensures r.envVars == DetectEnvVars(t, dir, BackendEnvFiles)
  {
    var (dockerfile, hasDocker) := FindDockerfile(t, dir, GoDockerfiles);
    TechStack("gin", "go", "1.22", 8080, hasDocker, dockerfile,
              "go build -o bin/server ./cmd/server", "./bin/server",
              DetectEnvVars(t, dir, BackendEnvFiles))
  }

  /** detectPythonBackend: FastAPI with no version, port 8000, installed
      from `requirements.txt` and served by uvicorn, the first valid
      Dockerfile among the Python candidates and the keys of the backend
      `.env` files. */
  function PythonBackend(t: FileTree, dir: string): (r: TechStack)
    ensures r.framework == "fastapi" && r.language == "python" && r.version == "" && r.port == 8000
    ensures (r.dockerfile, r.hasDockerfile) == FindDockerfile(t, dir, PythonDockerfiles)
    ensures r.buildCmd == "pip install -r requirements.txt"
    ensures r.startCmd == "uvicorn main:app --host 0.0.0.0 --port 8000"
    ensures r.envVars == DetectEnvVars(t, dir, BackendEnvFiles)
  {
    var (dockerfile, hasDocker) := FindDockerfile(t, dir, PythonDockerfiles);
    TechStack("fastapi", "python", "", 8000, hasDocker, dockerfile,
              "pip install -r requirements.txt", "uvicorn main:app --host 0.0.0.0 --port 8000",
              DetectEnvVars(t, dir, BackendEnvFiles))
  }

  /** detectNodeBackend: fastify beats koa, koa beats express. */
  function NodeBackend(t: FileTree, dir: string, deps: Deps): (r: TechStack)
    ensures r.framework == "fastify" <==> HasDep(deps, "fastify")
    ensures r.framework == "koa" <==> !HasDep(deps, "fastify") && HasDep(deps, "koa")
    ensures r.framework == "express" <==> !HasDep(deps, "fastify") && !HasDep(deps, "koa")
    ensures r.language == "nodejs" && r.version == "" && r.port == 8080
    ensures (r.dockerfile, r.hasDockerfile) == FindDockerfile(t, dir, NodeDockerfiles)
    ensures r.buildCmd == "npm run build" && r.startCmd == "npm start"
    ensures r.envVars == DetectEnvVars(t, dir, BackendEnvFiles)
  {
    var framework := if HasDep(deps, "fastify") then "fastify"
                     else if HasDep(deps, "koa") then "koa"
                     else "express";
    var (dockerfile, hasDocker) := FindDockerfile(t, dir, NodeDockerfiles);
    TechStack(framework, "nodejs", "", 8080, hasDocker, dockerfile,
              "npm run build", "npm start", DetectEnvVars(t, dir, BackendEnvFiles))
  }

  /** detectBackend: `go.mod`, then `requirements.txt` or `pyproject.toml`,
      then a `package.json` naming a server framework; the first probe that
      hits fixes the stack. */
  function DetectBackend(t: FileTree, dir: string): (r: Option<TechStack>)
    ensures Exists(t, Join(dir, "go.mod")) ==>
              r.Some? && r.value.framework == "gin" && r.value.language == "go"
              && r.value.version == "1.22" && r.value.port == 8080
    ensures !Exists(t, Join(dir, "go.mod"))
            && (Exists(t, Join(dir, "requirements.txt")) || Exists(t, Join(dir, "pyproject.toml"))) ==>
              r.Some? && r.value.framework == "fastapi" && r.value.language == "python" && r.value.port == 8000
    ensures !Exists(t, Join(dir, "go.mod")) && !Exists(t, Join(dir, "requirements.txt"))
            && !Exists(t, Join(dir, "pyproject.toml")) ==>
              && (r.Some? <==> PackageDeps(t, dir).Some? && HasAnyDep(PackageDeps(t, dir).value, NodeServerMarkers))
              && (r.Some? ==> r.value == NodeBackend(t, dir, PackageDeps(t, dir).value))
    ensures Exists(t, Join(dir, "go.mod")) ==> r == Some(GoBackend(t, dir))
    ensures !Exists(t, Join(dir, "go.mod"))
            && (Exists(t, Join(dir, "requirements.txt")) || Exists(t, Join(dir, "pyproject.toml"))) ==>
              r == Some(PythonBackend(t, dir)) && r.value.version == ""
              && (r.value.dockerfile, r.value.hasDockerfile) == FindDockerfile(t, dir, PythonDockerfiles)
    ensures r.Some? && r.value.language == "go" ==>
              (r.value.dockerfile, r.value.hasDockerfile) == FindDockerfile(t, dir, GoDockerfiles)
    ensures r.Some? && r.value.language == "nodejs" ==>
              (r.value.dockerfile, r.value.hasDockerfile) == FindDockerfile(t, dir, NodeDockerfiles)
    ensures r.Some? ==> r.value.envVars == DetectEnvVars(t, dir, BackendEnvFiles)
    ensures r.Some? ==> r.value.language in {"go", "python", "nodejs"}
  {
    if Exists(t, Join(dir, "go.mod")) then Some(GoBackend(t, dir))
    else if Exists(t, Join(dir, "requirements.txt")) then Some(PythonBackend(t, dir))
    else if Exists(t, Join(dir, "pyproject.toml")) then Some(PythonBackend(t, dir))
    else
      match ReadFile(t, Join(dir, "package.json"))
      case None => None
      case Some(content) =>
        var deps := ParseDependencies(content);
        if HasAnyDep(deps, NodeServerMarkers) then Some(NodeBackend(t, dir, deps))
        else None
  }

  /** A manifest file that marks a backend language. */
  datatype BackendMarker = BackendMarker(file: string, language: string)

  /** The manifests backend detection looks for, in the order it tries them. */
  const BackendManifests := [
    BackendMarker("go.mod", "go"),
    BackendMarker("requirements.txt", "python"),
    BackendMarker("pyproject.toml", "python")
  ]

  /** The index of the first marker whose manifest exists under `dir`. */
  function FirstManifest(t: FileTree, dir: string, markers: seq<BackendMarker>): (r: Option<nat>)
    ensures r.Some? ==> r.value < |markers| && Exists(t, Join(dir, markers[r.value].file))
    ensures r.Some? ==> forall j :: 0 <= j < r.value ==> !Exists(t, Join(dir, markers[j].file))
    ensures r.None? ==> forall j :: 0 <= j < |markers| ==> !Exists(t, Join(dir, markers[j].file))
  {
    if markers == [] then None
    else if Exists(t, Join(dir, markers[0].file)) then Some(0)
    else
      match FirstManifest(t, dir, markers[1..])
      case None => None
      case Some(i) => Some(i + 1)
  }

  /** Backend detection read as a table: the first manifest found fixes the
      language, and Node.js is reported only when there is no manifest. */
  lemma BackendByManifestTable(t: FileTree, dir: string)
    ensures FirstManifest(t, dir, BackendManifests).Some? ==>
              && DetectBackend(t, dir).Some?
              && DetectBackend(t, dir).value.language
                   == BackendManifests[FirstManifest(t, dir, BackendManifests).value].language
    ensures DetectBackend(t, dir).Some? && DetectBackend(t, dir).value.language == "nodejs" <==>
              FirstManifest(t, dir, BackendManifests).None? && DetectBackend(t, dir).Some?
  {
    if FirstManifest(t, dir, BackendManifests).None? {
      assert !Exists(t, Join(dir, BackendManifests[0].file));
      assert !Exists(t, Join(dir, BackendManifests[1].file));
      assert !Exists(t, Join(dir, BackendManifests[2].file));
    }
  }

  // ---------------------------------------------------------------------
  // Middleware (root manifests only)

  const SchemaPath := "prisma/schema.prisma"
  const MongoPackages := ["mongodb", "mongoose", "@prisma/client"]
  const RedisPackages := ["redis", "ioredis", "@redis/client"]
  const PostgresPackages := ["pg", "postgres", "prisma"]
  const GoMongoModules := ["go.mongodb.org/mongo-driver"]
  const GoRedisModules := ["github.com/redis/go-redis", "github.com/go-redis/redis"]
  const GoPostgresModules := ["github.com/lib/pq", "github.com/jackc/pgx"]
  const PythonMongoPackages := ["pymongo", "motor"]
  const PythonRedisPackages := ["redis", "aioredis"]
  const PythonPostgresPackages := ["psycopg2", "asyncpg"]

  /** checkPrismaPostgres: the Prisma schema declares the PostgreSQL provider;
      false when the schema is absent. */
  function CheckPrismaPostgres(t: FileTree): (r: bool)
    ensures r ==> SchemaPath in t.files
    ensures SchemaPath in t.files ==> (r <==> Contains(t.files[SchemaPath], "provider = \"postgresql\""))
  {
    match ReadFile(t, SchemaPath)
    case None => false
    case Some(content) => Contains(content, "provider = \"postgresql\"")
  }

  /** Some of `needles` occurs in `text`. */
  predicate ContainsAny(text: string, needles: seq<string>) {
    exists i :: 0 <= i < |needles| && Contains(text, needles[i])
  }

  /** The root file `path` exists and mentions one of `needles`. */
  predicate RootFileMentions(t: FileTree, path: string, needles: seq<string>) {
    path in t.files && ContainsAny(t.files[path], needles)
  }

  /** The root `package.json` declares one of `names`. */
  predicate RootPackageHas(t: FileTree, names: seq<string>) {
    PackageDeps(t, "").Some? && HasAnyDep(PackageDeps(t, "").value, names)
  }

  /** The `package.json` stage. */
  function FromPackageJson(t: FileTree, m: Middleware): (r: Middleware)
    ensures r.mongoDB <==> m.mongoDB || (RootPackageHas(t, MongoPackages) && !CheckPrismaPostgres(t))
    ensures r.redis <==> m.redis || RootPackageHas(t, RedisPackages)
    ensures r.postgres <==> m.postgres || (RootPackageHas(t, PostgresPackages) && CheckPrismaPostgres(t))
    ensures r.mySQL == m.mySQL
  {
    match PackageDeps(t, "")
    case None => m
    case Some(deps) =>
      var m1 := if HasAnyDep(deps, MongoPackages) && !CheckPrismaPostgres(t) then m.(mongoDB := true) else m;
      var m2 := if HasAnyDep(deps, RedisPackages) then m1.(redis := true) else m1;
      if HasAnyDep(deps, PostgresPackages) && CheckPrismaPostgres(t) then m2.(postgres := true) else m2
  }

  /** The stage for a root text file scanned by substring (`go.mod`,
      `requirements.txt`). */
  function FromTextFile(t: FileTree, path: string, mongo: seq<string>, redis: seq<string>,
                        postgres: seq<string>, m: Middleware): (r: Middleware)
    ensures r.mongoDB <==> m.mongoDB || RootFileMentions(t, path, mongo)
    ensures r.redis <==> m.redis || RootFileMentions(t, path, redis)
    ensures r.postgres <==> m.postgres || RootFileMentions(t, path, postgres)
    ensures r.mySQL == m.mySQL
  {
    match ReadFile(t, path)
    case None => m
    case Some(text) =>
      var m1 := if ContainsAny(text, mongo) then m.(mongoDB := true) else m;
      var m2 := if ContainsAny(text, redis) then m1.(redis := true) else m1;
      if ContainsAny(text, postgres) then m2.(postgres := true) else m2
  }

  /** detectMiddleware: `package.json`, then `go.mod`, then
      `requirements.txt` at the root, each only turning flags on. From
      `package.json` the document-store family counts only when the Prisma
      schema does not declare PostgreSQL, and the Postgres family only when it
      does. MySQL is never set. */
  function DetectMiddleware(t: FileTree): (m: Middleware)
    ensures !m.mySQL
    ensures m.mongoDB <==>
              || (RootPackageHas(t, MongoPackages) && !CheckPrismaPostgres(t))
              || RootFileMentions(t, "go.mod", GoMongoModules)
              || RootFileMentions(t, "requirements.txt", PythonMongoPackages)
    ensures m.redis <==>
              || RootPackageHas(t, RedisPackages)
              || RootFileMentions(t, "go.mod", GoRedisModules)
              || RootFileMentions(t, "requirements.txt", PythonRedisPackages)
    ensures m.postgres <==>
              || (RootPackageHas(t, PostgresPackages) && CheckPrismaPostgres(t))
              || RootFileMentions(t, "go.mod", GoPostgresModules)
              || RootFileMentions(t, "requirements.txt", PythonPostgresPackages)
  {
    var m1 := FromPackageJson(t, NoMiddleware);
    var m2 := FromTextFile(t, "go.mod", GoMongoModules, GoRedisModules, GoPostgresModules, m1);
    FromTextFile(t, "requirements.txt", PythonMongoPackages, PythonRedisPackages, PythonPostgresPackages, m2)
  }

  /** Without a Prisma schema, `package.json` never sets Postgres (not even
      for a plain `pg` dependency). */
  lemma NoSchemaNoPackagePostgres(t: FileTree)
    requires SchemaPath !in t.files
    requires "go.mod" !in t.files && "requirements.txt" !in t.files
    ensures !DetectMiddleware(t).postgres
  {
  }

  /** `@prisma/client` with a PostgreSQL schema but without a dependency that
      starts with `pg`, `postgres` or `prisma` sets neither family: the
      document-store test is suppressed by the schema, and `@prisma/client`
      does not start with `prisma`. */
  lemma PrismaClientAloneSetsNeither(t: FileTree)
    requires PackageDeps(t, "").Some? && "@prisma/client" in PackageDeps(t, "").value
    requires !HasAnyDep(PackageDeps(t, "").value, PostgresPackages)
    requires CheckPrismaPostgres(t)
    requires "go.mod" !in t.files && "requirements.txt" !in t.files
    ensures !DetectMiddleware(t).mongoDB && !DetectMiddleware(t).postgres
  {
  }

  /** `@prisma/client` without a schema counts as the document store. */
  lemma PrismaClientWithoutSchemaIsMongo(t: FileTree)
    requires PackageDeps(t, "").Some? && "@prisma/client" in PackageDeps(t, "").value
    requires SchemaPath !in t.files
    ensures DetectMiddleware(t).mongoDB
  {
    var deps := PackageDeps(t, "").value;
    assert HasPrefix("@prisma/client", "@prisma/client");
    assert HasDep(deps, MongoPackages[2]);
  }

  // ---------------------------------------------------------------------
  // Monorepo fallback and the whole detection

  const FrontendDirs := ["frontend", "web", "client", "ui"]
  const BackendDirs := ["backend", "api", "server", "services"]

  datatype Side = FrontendSide | BackendSide

  function DetectSide(t: FileTree, side: Side, dir: string): Option<TechStack> {
    match side
    case FrontendSide => DetectFrontend(t, dir)
    case BackendSide => DetectBackend(t, dir)
  }

  /** What probing one candidate directory yields: nothing when it does not
      exist, otherwise that side's own detection run inside it. */
  function Probe(t: FileTree, side: Side, dir: string): Option<TechStack> {
    if Exists(t, dir) then DetectSide(t, side, dir) else None
  }

  function Probes(t: FileTree, side: Side, dirs: seq<string>): (ps: seq<Option<TechStack>>)
    ensures |ps| == |dirs|
    ensures forall i :: 0 <= i < |dirs| ==> ps[i] == Probe(t, side, dirs[i])
  {
    seq(|dirs|, i requires 0 <= i < |dirs| => Probe(t, side, dirs[i]))
  }

  /** A stack found in `dir` reports its Dockerfile path relative to the
      root; nothing else about it changes. */
  function Relocate(s: TechStack, dir: string): (r: TechStack)
    ensures dir != "" ==> HasPrefix(r.dockerfile, dir)
    ensures s.dockerfile != "" ==> HasSuffix(r.dockerfile, s.dockerfile)
    ensures s.dockerfile == "" ==> r.dockerfile == dir
    ensures dir == "" ==> r == s
    ensures dir != "" && s.dockerfile != "" ==> r.dockerfile == dir + "/" + s.dockerfile
    ensures r.(dockerfile := s.dockerfile) == s
  {
    var r := s.(dockerfile := Join(dir, s.dockerfile));
    assert dir != "" ==> r.dockerfile[..|dir|] == dir;
    r
  }

  /** The first candidate directory whose probe finds a stack; scanning stops
      there. */
  function FirstHit(dirs: seq<string>, probes: seq<Option<TechStack>>): (r: Option<TechStack>)
    requires |probes| == |dirs|
    ensures r.Some? <==> exists i :: 0 <= i < |dirs| && probes[i].Some?
    ensures r.Some? ==>
              exists i :: 0 <= i < |dirs| && probes[i].Some?
                          && (forall j :: 0 <= j < i ==> probes[j].None?)
                          && r.value == Relocate(probes[i].value, dirs[i])
  {
    if dirs == [] then None
    else if probes[0].Some? then Some(Relocate(probes[0].value, dirs[0]))
    else
      var r := FirstHit(dirs[1..], probes[1..]);
      assert forall i :: 1 <= i < |dirs| ==> probes[i] == probes[1..][i - 1];
      r
  }

  /** detectMonorepo: each side independently tries its candidate list. */
  function DetectMonorepo(t: FileTree): (Option<TechStack>, Option<TechStack>) {
    (FirstHit(FrontendDirs, Probes(t, FrontendSide, FrontendDirs)),
     FirstHit(BackendDirs, Probes(t, BackendSide, BackendDirs)))
  }

  /** The project type follows from which stacks were found. */
  function TypeOf(frontend: Option<TechStack>, backend: Option<TechStack>): (p: ProjectType)
    ensures p == Fullstack <==> frontend.Some? && backend.Some?
    ensures p == Frontend <==> frontend.Some? && backend.None?
    ensures p == Backend <==> frontend.None? && backend.Some?
    ensures p == Unknown <==> frontend.None? && backend.None?
  {
    if frontend.Some? && backend.Some? then Fullstack
    else if frontend.Some? then Frontend
    else if backend.Some? then Backend
    else Unknown
  }

  /** Detect: root-level detection first; the monorepo fallback only when
      both root detections found nothing, never merged with them. The error
      result is always nil. */
  function Detect(t: FileTree, rootDir: string): (r: Result<Metadata, string>)
    ensures r.Success?
    ensures r.value.project.name == Base(rootDir)
    ensures r.value.project.detectedAt == "0"
    ensures r.value.project.projectType == TypeOf(r.value.techStack.frontend, r.value.techStack.backend)
    ensures DetectFrontend(t, "").Some? || DetectBackend(t, "").Some? ==>
              r.value.techStack == TechStackMap(DetectFrontend(t, ""), DetectBackend(t, ""))
    ensures DetectFrontend(t, "").None? && DetectBackend(t, "").None? ==>
              (r.value.techStack.frontend, r.value.techStack.backend) == DetectMonorepo(t)
    ensures r.value.middleware == DetectMiddleware(t) && !r.value.middleware.mySQL
  {
    var frontend := DetectFrontend(t, "");
    var backend := DetectBackend(t, "");
    var (fe, be) := if frontend.None? && backend.None? then DetectMonorepo(t) else (frontend, backend);
    var middleware := DetectMiddleware(t);
    Success(Metadata(
      ProjectMetadata(Base(rootDir), TypeOf(fe, be), Timestamp),
      TechStackMap(fe, be),
      middleware,
      PlatformInfo("", "")))
  }

  /** An empty tree: unknown type, no stacks, no middleware. */
  lemma EmptyTreeIsUnknown(rootDir: string)
    ensures var md := Detect(FileTree(map[], {}), rootDir).value;
            && md.project.projectType == Unknown
            && md.techStack == TechStackMap(None, None)
            && md.middleware == NoMiddleware
  {
    var t := FileTree(map[], {});
    assert forall p :: !Exists(t, p);
    assert forall side, dirs, i :: 0 <= i < |dirs| ==> Probes(t, side, dirs)[i] == None;
  }

  /** A file below `dir` makes `dir` exist. */
  lemma ExistsAbove(t: FileTree, dir: string, name: string)
    requires dir + "/" + name in t.files
    ensures Exists(t, dir)
  {
    var q := dir + "/" + name;
    assert q[..|dir + "/"|] == dir + "/";
    assert HasPrefix(q, dir + "/");
  }

  /** With none of the marker files at the root, neither root detection
      finds anything. */
  lemma RootFindsNothing(t: FileTree)
    requires !Exists(t, "package.json") && !Exists(t, "go.mod")
    requires !Exists(t, "requirements.txt") && !Exists(t, "pyproject.toml")
    ensures DetectFrontend(t, "").None? && DetectBackend(t, "").None?
  {
    assert Join("", "package.json") == "package.json";
    assert PackageDeps(t, "").None?;
  }

  /** A frontend detected in `frontend/` is the monorepo's frontend. */
  lemma MonorepoFrontendFirst(t: FileTree)
    requires Exists(t, "frontend") && DetectFrontend(t, "frontend").Some?
    ensures DetectMonorepo(t).0 == Some(Relocate(DetectFrontend(t, "frontend").value, "frontend"))
  {
    var ps := Probes(t, FrontendSide, FrontendDirs);
    assert ps[0] == DetectFrontend(t, "frontend");
  }

  /** A `go.mod` in `backend/` makes it the monorepo's backend, a Go one. */
  lemma MonorepoBackendFirst(t: FileTree)
    requires "backend/go.mod" in t.files
    ensures DetectMonorepo(t).1.Some? && DetectMonorepo(t).1.value.framework == "gin"
    ensures HasPrefix(DetectMonorepo(t).1.value.dockerfile, "backend")
  {
    assert "backend" + "/" + "go.mod" == "backend/go.mod";
    ExistsAbove(t, "backend", "go.mod");
    assert Exists(t, Join("backend", "go.mod"));
    var ps := Probes(t, BackendSide, BackendDirs);
    assert ps[0] == DetectBackend(t, "backend");
  }

  /** The monorepo layout: nothing at the root, `frontend/` detected as a
      frontend and `backend/go.mod` present give a full-stack project whose
      Dockerfile paths sit under `frontend` and `backend`. */
  lemma MonorepoFullstack(t: FileTree, rootDir: string)
    requires !Exists(t, "package.json") && !Exists(t, "go.mod")
    requires !Exists(t, "requirements.txt") && !Exists(t, "pyproject.toml")
    requires "backend/go.mod" in t.files
    requires DetectFrontend(t, "frontend").Some?
    ensures var md := Detect(t, rootDir).value;
            && md.project.projectType == Fullstack
            && md.techStack.backend.value.framework == "gin"
            && HasPrefix(md.techStack.frontend.value.dockerfile, "frontend")
            && HasPrefix(md.techStack.backend.value.dockerfile, "backend")
  {
    RootFindsNothing(t);
    assert Join("frontend", "package.json") in t.files;
    assert "frontend" + "/" + "package.json" == Join("frontend", "package.json");
    ExistsAbove(t, "frontend", "package.json");
    MonorepoFrontendFirst(t);
    MonorepoBackendFirst(t);
  }
}
