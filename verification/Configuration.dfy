/** The configuration, its resolution against the environment, validation and reload
(internal/models/config.go, internal/models/safe_config.go, internal/utils/env.go). */
module Configuration {
  import opened Wrappers
  import opened EnvExpansion
  import opened Strings

  // `raw` is the text the flag was written as, kept after resolution; `val` its value.
  datatype EnvBool = EnvBool(raw: string, val: bool)

  datatype ClusterConfig = ClusterConfig(
    name: string, endpoint: string, port: int, username: string,
    password: string, passwordFile: string, insecureSkipVerify: EnvBool)

  datatype OTel = OTel(enabled: bool, endpoint: string, insecure: bool, interval: string, samplingRate: real)

  datatype Settings = Settings(
    host: string, port: string, uri: string, logName: string,
    interval: string, timeout: string, metrics: OTel, tracing: OTel)

  datatype ConfigData = ConfigData(settings: Settings, clusters: seq<ClusterConfig>)

  // What resolution reads: environment variables and files.
  datatype World = World(env: Env, files: map<string, string>)

  // The checks of the sections other than `clusters`: port numbers and durations are parsed by library code.
  datatype Checks = Checks(server: Settings -> bool, otel: Settings -> bool)

  datatype Field = SkipVerify | Endpoint | Username | PasswordFile | Password

  datatype Problem = NoName | DuplicateName | NoEndpoint | BadPort | NoUsername | NoPassword

  datatype ConfigError =
    | Unreadable
    | Unresolved(cluster: string, field: Field)
    | BadServer
    | NoClusters
    | BadCluster(index: nat, problem: Problem)
    | BadOTel

  /** The configuration object the program fills in place. */
  class Config {
    var settings: Settings
    var clusters: seq<ClusterConfig>

    ghost function Data(): ConfigData
      reads this
    {
      ConfigData(settings, clusters)
    }

    constructor (d: ConfigData)
      ensures Data() == d
    {
      settings, clusters := d.settings, d.clusters;
    }
  }

  // ---------------------------------------------------------------- resolving secrets

  function ParseBool(s: string): Option<bool> {
    if s in ["1", "t", "T", "TRUE", "true", "True"] then Some(true)
    else if s in ["0", "f", "F", "FALSE", "false", "False"] then Some(false)
    else None
  }

  function ResolveBool(env: Env, b: EnvBool): Option<EnvBool> {
    if b.raw == "" then Some(b)
    else match Expand(env, b.raw)
      case Err(_) => None
      case Ok(text) =>
        var s := TrimSpace(text);
        if s == "" then Some(b.(val := false))
        else match ParseBool(s)
          case Some(v) => Some(b.(val := v))
          case None => None
  }

  // The cluster after resolution, together with the field that failed. Fields before it are already replaced.
  function ResolveCluster(w: World, cl: ClusterConfig): (ClusterConfig, Option<Field>) {
    match ResolveBool(w.env, cl.insecureSkipVerify)
    case None => (cl, Some(SkipVerify))
    case Some(b) =>
      var c1 := cl.(insecureSkipVerify := b);
      match ExpandSecret(w.env, "endpoint", cl.endpoint)
      case Err(_) => (c1, Some(Endpoint))
      case Ok(endpoint) =>
        var c2 := c1.(endpoint := endpoint);
        match ExpandSecret(w.env, "username", cl.username)
        case Err(_) => (c2, Some(Username))
        case Ok(username) =>
          var c3 := c2.(username := username);
          ResolvePasswordOf(w, c3)
  }

  // The last field: a password file counts only where no password is given.
  function ResolvePasswordOf(w: World, cl: ClusterConfig): (ClusterConfig, Option<Field>) {
    if cl.password == "" && cl.passwordFile != "" then
      if cl.passwordFile in w.files then (cl.(password := TrimSpace(w.files[cl.passwordFile])), None)
      else (cl, Some(PasswordFile))
    else match ExpandSecret(w.env, "password", cl.password)
      case Err(_) => (cl, Some(Password))
      case Ok(password) => (cl.(password := password), None)
  }

  type Resolution = ClusterConfig -> (ClusterConfig, Option<Field>)

  // Clusters up to the first failure are resolved; those after it are untouched.
  function ResolveEach(f: Resolution, clusters: seq<ClusterConfig>): (r: (seq<ClusterConfig>, Option<ConfigError>))
    ensures |r.0| == |clusters|
  {
    if clusters == [] then ([], None)
    else
      var (cl, failed) := f(clusters[0]);
      if failed.Some? then ([cl] + clusters[1..], Some(Unresolved(cl.name, failed.value)))
      else
        var (rest, err) := ResolveEach(f, clusters[1..]);
        ([cl] + rest, err)
  }

  function Resolving(w: World): Resolution {
    (cl: ClusterConfig) => ResolveCluster(w, cl)
  }

  function ResolveAll(w: World, clusters: seq<ClusterConfig>): (seq<ClusterConfig>, Option<ConfigError>) {
    ResolveEach(Resolving(w), clusters)
  }

  method ResolveFlag(env: Env, b: EnvBool) returns (r: Option<EnvBool>)
    ensures r == ResolveBool(env, b)
  {
    if b.raw == "" {
      return Some(b);
    }
    var expanded := ExpandEnv(env, b.raw);
    if expanded.Err? {
      return None;
    }
    var s := TrimSpace(expanded.value);
    if s == "" {
      return Some(b.(val := false));
    }
    var v := ParseBool(s);
    return if v.Some? then Some(b.(val := v.value)) else None;
  }

  // Resolves cluster `i` field by field in place.
  method ResolveOne(w: World, cfg: Config, i: nat) returns (failed: Option<Field>)
    requires i < |cfg.clusters|
    modifies cfg`clusters
    ensures var (cl, f) := ResolveCluster(w, old(cfg.clusters)[i]);
            cfg.clusters == old(cfg.clusters)[i := cl] && failed == f
  {
    var b := ResolveFlag(w.env, cfg.clusters[i].insecureSkipVerify);
    if b.None? {
      return Some(SkipVerify);
    }
    cfg.clusters := cfg.clusters[i := cfg.clusters[i].(insecureSkipVerify := b.value)];

    var endpoint := ExpandEnvSecret(w.env, "endpoint", cfg.clusters[i].endpoint);
    if endpoint.Err? {
      return Some(Endpoint);
    }
    cfg.clusters := cfg.clusters[i := cfg.clusters[i].(endpoint := endpoint.value)];

    var username := ExpandEnvSecret(w.env, "username", cfg.clusters[i].username);
    if username.Err? {
      return Some(Username);
    }
    cfg.clusters := cfg.clusters[i := cfg.clusters[i].(username := username.value)];

    failed := ResolvePassword(w, cfg, i);
  }

  method ResolvePassword(w: World, cfg: Config, i: nat) returns (failed: Option<Field>)
    requires i < |cfg.clusters|
    modifies cfg`clusters
    ensures var (cl, f) := ResolvePasswordOf(w, old(cfg.clusters)[i]);
            cfg.clusters == old(cfg.clusters)[i := cl] && failed == f
  {
    if cfg.clusters[i].password == "" && cfg.clusters[i].passwordFile != "" {
      if cfg.clusters[i].passwordFile !in w.files {
        return Some(PasswordFile);
      }
      cfg.clusters := cfg.clusters[i := cfg.clusters[i].(password := TrimSpace(w.files[cfg.clusters[i].passwordFile]))];
      return None;
    }
    var password := ExpandEnvSecret(w.env, "password", cfg.clusters[i].password);
    if password.Err? {
      return Some(Password);
    }
    cfg.clusters := cfg.clusters[i := cfg.clusters[i].(password := password.value)];
    return None;
  }

  // The first `i` clusters are resolved, the others as before.
  ghost predicate ResolvedUpTo(f: Resolution, before: seq<ClusterConfig>, now: seq<ClusterConfig>, i: nat) {
    && i <= |now| == |before|
    && (forall j :: 0 <= j < i ==> f(before[j]) == (now[j], None))
    && (forall j :: i <= j < |now| ==> now[j] == before[j])
  }

  lemma {:induction false} ResolvedToTheEnd(f: Resolution, before: seq<ClusterConfig>, now: seq<ClusterConfig>)
    requires ResolvedUpTo(f, before, now, |before|)
    ensures ResolveEach(f, before) == (now, None)
  {
    if before != [] {
      ResolvedToTheEnd(f, before[1..], now[1..]);
      assert now == [now[0]] + now[1..];
    } else {
      assert now == [];
    }
  }

  lemma {:induction false} ResolvedToAFailure(f: Resolution, before: seq<ClusterConfig>, now: seq<ClusterConfig>, i: nat,
                                              failed: Field)
    requires i < |before| == |now|
    requires forall j :: 0 <= j < i ==> f(before[j]) == (now[j], None)
    requires forall j :: i < j < |now| ==> now[j] == before[j]
    requires f(before[i]) == (now[i], Some(failed))
    ensures ResolveEach(f, before) == (now, Some(Unresolved(now[i].name, failed)))
  {
    if i == 0 {
      assert now[1..] == before[1..];
      assert now == [now[0]] + before[1..];
    } else {
      ResolvedToAFailure(f, before[1..], now[1..], i - 1, failed);
      assert now == [now[0]] + now[1..];
    }
  }

  method ResolveSecrets(w: World, cfg: Config) returns (err: Option<ConfigError>)
    modifies cfg`clusters
    ensures (cfg.clusters, err) == ResolveAll(w, old(cfg.clusters))
  {
    ghost var before, f := cfg.clusters, Resolving(w);
    for i := 0 to |cfg.clusters|
      invariant ResolvedUpTo(f, before, cfg.clusters, i)
    {
      assert f(before[i]) == ResolveCluster(w, before[i]);
      var failed := ResolveOne(w, cfg, i);
      if failed.Some? {
        ResolvedToAFailure(f, before, cfg.clusters, i, failed.value);
        return Some(Unresolved(cfg.clusters[i].name, failed.value));
      }
    }
    ResolvedToTheEnd(f, before, cfg.clusters);
    return None;
  }

  // ---------------------------------------------------------------- defaults and validation

  function Or(s: string, fallback: string): string {
    if s == "" then fallback else s
  }

  function DefaultSettings(s: Settings): Settings {
    var interval := Or(s.interval, "10s");
    s.(host := Or(s.host, "0.0.0.0"), port := Or(s.port, "9444"), uri := Or(s.uri, "/metrics"),
       interval := interval, timeout := Or(s.timeout, "8s"),
       metrics := s.metrics.(interval := Or(s.metrics.interval, interval)))
  }

  function DefaultPort(cl: ClusterConfig): ClusterConfig {
    if cl.port == 0 then cl.(port := 8080) else cl
  }

  function DefaultPorts(clusters: seq<ClusterConfig>): seq<ClusterConfig> {
    seq(|clusters|, i requires 0 <= i < |clusters| => DefaultPort(clusters[i]))
  }

  function WithDefaults(d: ConfigData): ConfigData {
    ConfigData(DefaultSettings(d.settings), DefaultPorts(d.clusters))
  }

  // `t` is `s` with every empty setting filled in, and the same otherwise.
  predicate SettingsFilled(s: Settings, t: Settings) {
    && (if s.host == "" then t.host == "0.0.0.0" else t.host == s.host)
    && (if s.port == "" then t.port == "9444" else t.port == s.port)
    && (if s.uri == "" then t.uri == "/metrics" else t.uri == s.uri)
    && (if s.interval == "" then t.interval == "10s" else t.interval == s.interval)
    && (if s.timeout == "" then t.timeout == "8s" else t.timeout == s.timeout)
    && (if s.metrics.interval == "" then t.metrics.interval == t.interval else t.metrics.interval == s.metrics.interval)
    && t.logName == s.logName && t.tracing == s.tracing
    && t.metrics.enabled == s.metrics.enabled && t.metrics.endpoint == s.metrics.endpoint
    && t.metrics.insecure == s.metrics.insecure && t.metrics.samplingRate == s.metrics.samplingRate
  }

  // The ports of the clusters are filled in; names, endpoints, credentials and flags are as they were.
  predicate PortsFilled(before: seq<ClusterConfig>, after: seq<ClusterConfig>) {
    && |after| == |before|
    && forall i :: 0 <= i < |after| ==>
         && (if before[i].port == 0 then after[i].port == 8080 else after[i].port == before[i].port)
         && after[i].name == before[i].name && after[i].endpoint == before[i].endpoint
         && after[i].username == before[i].username && after[i].password == before[i].password
         && after[i].passwordFile == before[i].passwordFile && after[i].insecureSkipVerify == before[i].insecureSkipVerify
  }

  lemma DefaultsAreFilled(d: ConfigData)
    ensures SettingsFilled(d.settings, WithDefaults(d).settings)
    ensures PortsFilled(d.clusters, WithDefaults(d).clusters)
  {
  }

  method SetDefaults(cfg: Config)
    modifies cfg
    ensures SettingsFilled(old(cfg.settings), cfg.settings)
    ensures PortsFilled(old(cfg.clusters), cfg.clusters)
    ensures cfg.Data() == WithDefaults(old(cfg.Data()))
  {
    var s := cfg.settings;
    if s.host == "" { s := s.(host := "0.0.0.0"); }
    if s.port == "" { s := s.(port := "9444"); }
    if s.uri == "" { s := s.(uri := "/metrics"); }
    if s.interval == "" { s := s.(interval := "10s"); }
    if s.timeout == "" { s := s.(timeout := "8s"); }
    if s.metrics.interval == "" { s := s.(metrics := s.metrics.(interval := s.interval)); }
    cfg.settings := s;
    ghost var before := cfg.clusters;
    for i := 0 to |cfg.clusters|
      invariant cfg.settings == s && |cfg.clusters| == |before|
      invariant forall j :: 0 <= j < |before| ==> cfg.clusters[j] == if j < i then DefaultPort(before[j]) else before[j]
    {
      if cfg.clusters[i].port == 0 {
        cfg.clusters := cfg.clusters[i := cfg.clusters[i].(port := 8080)];
      }
    }
    DefaultsAreFilled(old(cfg.Data()));
  }

  // The first thing wrong with cluster `i`, given the clusters before it.
  function ProblemAt(clusters: seq<ClusterConfig>, i: nat): Option<Problem>
    requires i < |clusters|
  {
    var cl := clusters[i];
    if cl.name == "" then Some(NoName)
    else if exists j :: 0 <= j < i && clusters[j].name == cl.name then Some(DuplicateName)
    else if cl.endpoint == "" then Some(NoEndpoint)
    else if cl.port < 1 || cl.port > 65535 then Some(BadPort)
    else if cl.username == "" then Some(NoUsername)
    else if cl.password == "" && cl.passwordFile == "" then Some(NoPassword)
    else None
  }

  function FirstProblem(clusters: seq<ClusterConfig>, i: nat): Option<ConfigError>
    requires i <= |clusters|
    decreases |clusters| - i
  {
    if i == |clusters| then None
    else match ProblemAt(clusters, i)
      case Some(p) => Some(BadCluster(i, p))
      case None => FirstProblem(clusters, i + 1)
  }

  function ClustersProblem(clusters: seq<ClusterConfig>): Option<ConfigError> {
    if clusters == [] then Some(NoClusters) else FirstProblem(clusters, 0)
  }

  method ValidateClusters(clusters: seq<ClusterConfig>) returns (err: Option<ConfigError>)
    ensures err == ClustersProblem(clusters)
  {
    if |clusters| == 0 {
      return Some(NoClusters);
    }
    var seen: set<string> := {};
    for i := 0 to |clusters|
      invariant forall n :: n in seen <==> exists j :: 0 <= j < i && clusters[j].name == n
      invariant FirstProblem(clusters, 0) == FirstProblem(clusters, i)
    {
      var cl := clusters[i];
      if cl.name == "" { return Some(BadCluster(i, NoName)); }
      if cl.name in seen { return Some(BadCluster(i, DuplicateName)); }
      seen := seen + {cl.name};
      if cl.endpoint == "" { return Some(BadCluster(i, NoEndpoint)); }
      if cl.port < 1 || cl.port > 65535 { return Some(BadCluster(i, BadPort)); }
      if cl.username == "" { return Some(BadCluster(i, NoUsername)); }
      if cl.password == "" && cl.passwordFile == "" { return Some(BadCluster(i, NoPassword)); }
    }
    return None;
  }

  // What a valid cluster list is, without regard to the order of checks.
  ghost predicate Acceptable(clusters: seq<ClusterConfig>) {
    && clusters != []
    && (forall i, j :: 0 <= i < j < |clusters| ==> clusters[i].name != clusters[j].name)
    && forall cl :: cl in clusters ==>
         && cl.name != "" && cl.endpoint != "" && cl.username != ""
         && 1 <= cl.port <= 65535 && (cl.password != "" || cl.passwordFile != "")
  }

  lemma {:induction false} NoProblemFrom(clusters: seq<ClusterConfig>, i: nat)
    requires i <= |clusters|
    ensures FirstProblem(clusters, i).None? <==> forall j :: i <= j < |clusters| ==> ProblemAt(clusters, j).None?
    decreases |clusters| - i
  {
    if i < |clusters| {
      NoProblemFrom(clusters, i + 1);
    }
  }

  /** Validation accepts exactly the lists of complete clusters with distinct names. */
  lemma ValidationAcceptsExactly(clusters: seq<ClusterConfig>)
    ensures ClustersProblem(clusters).None? <==> Acceptable(clusters)
  {
    NoProblemFrom(clusters, 0);
    if Acceptable(clusters) {
      forall j | 0 <= j < |clusters| ensures ProblemAt(clusters, j).None? {
        assert clusters[j] in clusters;
      }
    }
    if clusters != [] && forall j :: 0 <= j < |clusters| ==> ProblemAt(clusters, j).None? {
      forall i, j | 0 <= i < j < |clusters| ensures clusters[i].name != clusters[j].name {
        assert ProblemAt(clusters, j).None?;
      }
      forall cl | cl in clusters ensures cl.name != "" && cl.endpoint != "" && cl.username != ""
        && 1 <= cl.port <= 65535 && (cl.password != "" || cl.passwordFile != "")
      {
        var j :| 0 <= j < |clusters| && clusters[j] == cl;
        assert ProblemAt(clusters, j).None?;
      }
    }
  }

  function ValidationError(checks: Checks, d: ConfigData): Option<ConfigError> {
    if !checks.server(d.settings) then Some(BadServer)
    else if ClustersProblem(d.clusters).Some? then ClustersProblem(d.clusters)
    else if !checks.otel(d.settings) then Some(BadOTel)
    else None
  }

  method Validate(checks: Checks, cfg: Config) returns (err: Option<ConfigError>)
    modifies cfg
    ensures SettingsFilled(old(cfg.settings), cfg.settings) && PortsFilled(old(cfg.clusters), cfg.clusters)
    ensures cfg.Data() == WithDefaults(old(cfg.Data()))
    ensures err == ValidationError(checks, cfg.Data())
  {
    SetDefaults(cfg);
    if !checks.server(cfg.settings) {
      return Some(BadServer);
    }
    err := ValidateClusters(cfg.clusters);
    if err.None? && !checks.otel(cfg.settings) {
      return Some(BadOTel);
    }
  }

  // ---------------------------------------------------------------- the two pipelines

  // Decode, resolve, default, validate: what reload does, and how startup begins.
  function Prepare(w: World, checks: Checks, decoded: Option<ConfigData>): Result<ConfigData, ConfigError> {
    match decoded
    case None => Err(Unreadable)
    case Some(raw) =>
      var (clusters, err) := ResolveAll(w, raw.clusters);
      if err.Some? then Err(err.value)
      else
        var d := WithDefaults(ConfigData(raw.settings, clusters));
        match ValidationError(checks, d)
        case Some(e) => Err(e)
        case None => Ok(d)
  }

  // Startup resolves once more after validation.
  function Startup(w: World, checks: Checks, decoded: Option<ConfigData>): Result<ConfigData, ConfigError> {
    match Prepare(w, checks, decoded)
    case Err(e) => Err(e)
    case Ok(d) =>
      var (clusters, err) := ResolveAll(w, d.clusters);
      if err.Some? then Err(err.value) else Ok(d.(clusters := clusters))
  }

  method LoadConfig(w: World, checks: Checks, decoded: Option<ConfigData>)
    returns (r: Result<ConfigData, ConfigError>, cfg: Config)
    ensures r == Prepare(w, checks, decoded)
    ensures fresh(cfg) && (r.Ok? ==> cfg.Data() == r.value)
  {
    var empty := OTel(false, "", false, "", 0.0);
    cfg := new Config(if decoded.Some? then decoded.value else ConfigData(Settings("", "", "", "", "", "", empty, empty), []));
    if decoded.None? {
      return Err(Unreadable), cfg;
    }
    var unresolved := ResolveSecrets(w, cfg);
    if unresolved.Some? {
      return Err(unresolved.value), cfg;
    }
    var invalid := Validate(checks, cfg);
    if invalid.Some? {
      return Err(invalid.value), cfg;
    }
    return Ok(ConfigData(cfg.settings, cfg.clusters)), cfg;
  }

  method StartConfig(w: World, checks: Checks, decoded: Option<ConfigData>) returns (r: Result<Config, ConfigError>)
    ensures match Startup(w, checks, decoded)
            case Ok(d) => r.Ok? && fresh(r.value) && r.value.Data() == d
            case Err(e) => r == Err(e)
  {
    var loaded, cfg := LoadConfig(w, checks, decoded);
    if loaded.Err? {
      return Err(loaded.error);
    }
    var unresolved := ResolveSecrets(w, cfg);
    if unresolved.Some? {
      return Err(unresolved.value);
    }
    return Ok(cfg);
  }

  /** Shared access to the running configuration. */
  class SafeConfig {
    var C: Config

    constructor (c: Config)
      ensures C == c
    {
      C := c;
    }

    /** Swaps in a valid new configuration and says whether the cluster list differs; an invalid one
    changes nothing. The old configuration object is never written, so readers that hold it are safe. */
    method ReloadConfig(w: World, checks: Checks, decoded: Option<ConfigData>) returns (r: Result<bool, ConfigError>)
      modifies this`C
      ensures match Prepare(w, checks, decoded)
              case Err(e) => r == Err(e) && C == old(C)
              case Ok(d) => r == Ok(old(C.clusters) != d.clusters) && fresh(C) && C.Data() == d
      ensures old(C).Data() == old(C.Data())
    {
      var loaded, cfg := LoadConfig(w, checks, decoded);
      if loaded.Err? {
        return Err(loaded.error);
      }
      r := Ok(C.clusters != cfg.clusters);
      C := cfg;
    }
  }
}
