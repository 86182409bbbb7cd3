/** What startup and reload let run, field by field: when a configuration loads, and what each of its fields is then
(internal/models/config.go, internal/models/safe_config.go, internal/utils/env.go, main.go). */
module ConfigurationAsWritten {
  import opened Wrappers
  import opened EnvExpansion
  import opened TextAsWritten
  import opened Configuration
  import opened ReloadAgreement
  import Strings

  // ---------------------------------------------------------------- one cluster

  // The texts a flag may come out as.
  predicate SaysTrue(text: string) {
    text == "1" || text == "t" || text == "T" || text == "TRUE" || text == "true" || text == "True"
  }

  predicate SaysFalse(text: string) {
    text == "0" || text == "f" || text == "F" || text == "FALSE" || text == "false" || text == "False"
  }

  // A flag without text keeps its value; else its expanded text, trimmed, is empty for false or says one or the other.
  ghost predicate FlagSays(env: Env, b: EnvBool, v: bool) {
    if b.raw == "" then v == b.val
    else exists text, word ::
      Expand(env, b.raw) == Ok(text) && Trims(text, word) && if v then SaysTrue(word) else word == "" || SaysFalse(word)
  }

  lemma ParseBoolAsWritten(s: string)
    ensures Configuration.ParseBool(s) == if SaysTrue(s) then Some(true) else if SaysFalse(s) then Some(false) else None
  {
  }

  lemma SaysOneThing(s: string)
    ensures SaysTrue(s) ==> !SaysFalse(s) && s != ""
    ensures SaysFalse(s) ==> s != ""
  {
    assert SaysTrue(s) ==> |s| == 4 || (|s| == 1 && (s[0] == '1' || s[0] == 't' || s[0] == 'T'));
    assert SaysFalse(s) ==> |s| == 5 || (|s| == 1 && (s[0] == '0' || s[0] == 'f' || s[0] == 'F'));
  }

  lemma FlagAsWritten(env: Env, b: EnvBool, r: EnvBool)
    ensures ResolveBool(env, b) == Some(r) <==> r.raw == b.raw && FlagSays(env, b, r.val)
  {
    if b.raw != "" && Expand(env, b.raw).Ok? {
      var text := Expand(env, b.raw).value;
      var word := Strings.TrimSpace(text);
      TrimSpaceAsWritten(text, word);
      forall other | Trims(text, other) ensures other == word {
        TrimSpaceAsWritten(text, other);
      }
      ParseBoolAsWritten(word);
      SaysOneThing(word);
    }
  }

  // The text a credential field expands to; it is empty only if the field is.
  predicate Becomes(env: Env, field: string, value: string) {
    Expand(env, field) == Ok(value) && (value == "" ==> field == "")
  }

  lemma SecretAsWritten(env: Env, name: string, field: string, value: string)
    ensures ExpandSecret(env, name, field) == Ok(value) <==> Becomes(env, field, value)
  {
    SecretIsEmptyExactlyWhenWrittenEmpty(env, name, field);
  }

  ghost predicate PasswordBecomes(w: World, raw: ClusterConfig, password: string) {
    if raw.password == "" && raw.passwordFile != ""
    then raw.passwordFile in w.files && Trims(w.files[raw.passwordFile], password)
    else Becomes(w.env, raw.password, password)
  }

  /** `cl` is `raw` resolved: its flag, endpoint, username and password read, and nothing else changed. */
  ghost predicate Resolves(w: World, raw: ClusterConfig, cl: ClusterConfig) {
    && cl.name == raw.name && cl.port == raw.port && cl.passwordFile == raw.passwordFile
    && cl.insecureSkipVerify.raw == raw.insecureSkipVerify.raw
    && FlagSays(w.env, raw.insecureSkipVerify, cl.insecureSkipVerify.val)
    && Becomes(w.env, raw.endpoint, cl.endpoint)
    && Becomes(w.env, raw.username, cl.username)
    && PasswordBecomes(w, raw, cl.password)
  }

  lemma PasswordAsWritten(w: World, raw: ClusterConfig, cl: ClusterConfig)
    ensures ResolvePasswordOf(w, raw) == (cl, None)
       <==> PasswordBecomes(w, raw, cl.password) && cl == raw.(password := cl.password)
  {
    if raw.passwordFile in w.files {
      TrimSpaceAsWritten(w.files[raw.passwordFile], cl.password);
    }
    SecretAsWritten(w.env, "password", raw.password, cl.password);
  }

  /** Resolving a cluster succeeds exactly when every field can be read, and gives what they say. */
  lemma ClusterAsWritten(w: World, raw: ClusterConfig, cl: ClusterConfig)
    ensures ResolveCluster(w, raw) == (cl, None) <==> Resolves(w, raw, cl)
  {
    FlagAsWritten(w.env, raw.insecureSkipVerify, cl.insecureSkipVerify);
    SecretAsWritten(w.env, "endpoint", raw.endpoint, cl.endpoint);
    SecretAsWritten(w.env, "username", raw.username, cl.username);
    var read := raw.(insecureSkipVerify := cl.insecureSkipVerify, endpoint := cl.endpoint, username := cl.username);
    PasswordAsWritten(w, read, cl);
  }

  ghost predicate FlagReads(env: Env, b: EnvBool) {
    exists v :: FlagSays(env, b, v)
  }

  ghost predicate Reads(env: Env, field: string) {
    exists value :: Becomes(env, field, value)
  }

  lemma FlagReadsExactly(env: Env, b: EnvBool)
    ensures ResolveBool(env, b).Some? <==> FlagReads(env, b)
  {
    if ResolveBool(env, b).Some? {
      FlagAsWritten(env, b, ResolveBool(env, b).value);
    }
    if v :| FlagSays(env, b, v) {
      FlagAsWritten(env, b, b.(val := v));
    }
  }

  lemma SecretReadsExactly(env: Env, name: string, field: string)
    ensures ExpandSecret(env, name, field).Ok? <==> Reads(env, field)
  {
    if ExpandSecret(env, name, field).Ok? {
      SecretAsWritten(env, name, field, ExpandSecret(env, name, field).value);
    }
    if value :| Becomes(env, field, value) {
      SecretAsWritten(env, name, field, value);
    }
  }

  /** The field reported is the first one that cannot be read: the flag, then endpoint, username and password. */
  lemma FailedFieldAsWritten(w: World, raw: ClusterConfig, f: Field)
    ensures ResolveCluster(w, raw).1 == Some(f) <==>
            match f
            case SkipVerify => !FlagReads(w.env, raw.insecureSkipVerify)
            case Endpoint => FlagReads(w.env, raw.insecureSkipVerify) && !Reads(w.env, raw.endpoint)
            case Username =>
              FlagReads(w.env, raw.insecureSkipVerify) && Reads(w.env, raw.endpoint) && !Reads(w.env, raw.username)
            case PasswordFile =>
              && FlagReads(w.env, raw.insecureSkipVerify) && Reads(w.env, raw.endpoint) && Reads(w.env, raw.username)
              && raw.password == "" && raw.passwordFile != "" && raw.passwordFile !in w.files
            case Password =>
              && FlagReads(w.env, raw.insecureSkipVerify) && Reads(w.env, raw.endpoint) && Reads(w.env, raw.username)
              && (raw.password != "" || raw.passwordFile == "") && !Reads(w.env, raw.password)
  {
    FlagReadsExactly(w.env, raw.insecureSkipVerify);
    SecretReadsExactly(w.env, "endpoint", raw.endpoint);
    SecretReadsExactly(w.env, "username", raw.username);
    SecretReadsExactly(w.env, "password", raw.password);
  }

  // ---------------------------------------------------------------- all clusters

  ghost predicate AllResolve(w: World, raw: seq<ClusterConfig>, clusters: seq<ClusterConfig>) {
    |clusters| == |raw| && forall i :: 0 <= i < |raw| ==> Resolves(w, raw[i], clusters[i])
  }

  lemma ClustersAsWritten(w: World, raw: seq<ClusterConfig>, clusters: seq<ClusterConfig>)
    ensures ResolveAll(w, raw) == (clusters, None) <==> AllResolve(w, raw, clusters)
  {
    if ResolveAll(w, raw).1.None? {
      ResolveAllPointwise(w, raw);
    }
    forall i | 0 <= i < |raw| && |clusters| == |raw|
      ensures ResolveCluster(w, raw[i]) == (clusters[i], None) <==> Resolves(w, raw[i], clusters[i])
    {
      ClusterAsWritten(w, raw[i], clusters[i]);
    }
    if AllResolve(w, raw, clusters) {
      ResolvedToTheEnd(Resolving(w), raw, clusters);
    }
  }

  // ---------------------------------------------------------------- the first problem

  // Named, under a name no cluster before it has.
  predicate NamedApart(clusters: seq<ClusterConfig>, i: nat)
    requires i < |clusters|
  {
    clusters[i].name != "" && forall j :: 0 <= j < i ==> clusters[j].name != clusters[i].name
  }

  predicate Complete(cl: ClusterConfig) {
    && cl.endpoint != "" && cl.username != "" && (cl.password != "" || cl.passwordFile != "")
    && 1 <= cl.port <= 65535
  }

  // What a problem says of cluster `i`: the checks before it pass.
  predicate Has(clusters: seq<ClusterConfig>, i: nat, p: Problem)
    requires i < |clusters|
  {
    var cl := clusters[i];
    match p
    case NoName => cl.name == ""
    case DuplicateName => cl.name != "" && !NamedApart(clusters, i)
    case NoEndpoint => NamedApart(clusters, i) && cl.endpoint == ""
    case BadPort => NamedApart(clusters, i) && cl.endpoint != "" && !(1 <= cl.port <= 65535)
    case NoUsername => NamedApart(clusters, i) && cl.endpoint != "" && 1 <= cl.port <= 65535 && cl.username == ""
    case NoPassword =>
      && NamedApart(clusters, i) && cl.endpoint != "" && 1 <= cl.port <= 65535 && cl.username != ""
      && cl.password == "" && cl.passwordFile == ""
  }

  lemma ProblemAtAsWritten(clusters: seq<ClusterConfig>, i: nat, p: Problem)
    requires i < |clusters|
    ensures ProblemAt(clusters, i) == Some(p) <==> Has(clusters, i, p)
    ensures ProblemAt(clusters, i) == None <==> NamedApart(clusters, i) && Complete(clusters[i])
  {
  }

  lemma {:induction false} FirstProblemFrom(clusters: seq<ClusterConfig>, k: nat, i: nat, p: Problem)
    requires k <= |clusters|
    ensures FirstProblem(clusters, k) == Some(BadCluster(i, p)) <==>
            && k <= i < |clusters| && Has(clusters, i, p)
            && forall j :: k <= j < i ==> NamedApart(clusters, j) && Complete(clusters[j])
    decreases |clusters| - k
  {
    if k < |clusters| {
      ProblemAtAsWritten(clusters, k, p);
      FirstProblemFrom(clusters, k + 1, i, p);
      assert i < k || i == k || k + 1 <= i;
    }
  }

  /** The problem reported is the first one of the first cluster that has any. */
  lemma ProblemAsWritten(clusters: seq<ClusterConfig>, i: nat, p: Problem)
    ensures ClustersProblem(clusters) == Some(BadCluster(i, p)) <==>
            i < |clusters| && Has(clusters, i, p) && forall j :: 0 <= j < i ==> NamedApart(clusters, j) && Complete(clusters[j])
    ensures ClustersProblem(clusters) == Some(NoClusters) <==> clusters == []
  {
    FirstProblemFrom(clusters, 0, i, p);
    NotEmptyProblem(clusters, 0);
  }

  lemma {:induction false} NotEmptyProblem(clusters: seq<ClusterConfig>, k: nat)
    requires k <= |clusters|
    ensures FirstProblem(clusters, k) != Some(NoClusters)
    decreases |clusters| - k
  {
    if k < |clusters| {
      NotEmptyProblem(clusters, k + 1);
    }
  }

  // ---------------------------------------------------------------- the two pipelines

  lemma FilledIsDefault(s: Settings, t: Settings)
    ensures SettingsFilled(s, t) <==> t == DefaultSettings(s)
  {
    DefaultsAreFilled(ConfigData(s, []));
    if SettingsFilled(s, t) {
      assert t.metrics == DefaultSettings(s).metrics;
    }
  }

  lemma PortsAreDefault(before: seq<ClusterConfig>, after: seq<ClusterConfig>)
    ensures PortsFilled(before, after) <==> after == DefaultPorts(before)
  {
    if PortsFilled(before, after) {
      forall i | 0 <= i < |after| ensures after[i] == DefaultPorts(before)[i] {
      }
    }
  }

  /** A reload lets `d` run for the file `raw`: its clusters resolved, its empty settings and ports filled in, and the
  outcome complete and in order. */
  ghost predicate Loads(w: World, checks: Checks, raw: ConfigData, d: ConfigData) {
    && SettingsFilled(raw.settings, d.settings)
    && (exists resolved :: AllResolve(w, raw.clusters, resolved) && PortsFilled(resolved, d.clusters))
    && checks.server(d.settings) && checks.otel(d.settings) && Acceptable(d.clusters)
  }

  /** What a reload loads is settled by the file and the world, field by field. */
  lemma ReloadAsWritten(w: World, checks: Checks, raw: ConfigData, d: ConfigData)
    ensures Prepare(w, checks, Some(raw)) == Ok(d) <==> Loads(w, checks, raw, d)
  {
    FilledIsDefault(raw.settings, d.settings);
    ValidationAcceptsExactly(d.clusters);
    var resolved := ResolveAll(w, raw.clusters).0;
    ClustersAsWritten(w, raw.clusters, resolved);
    PortsAreDefault(resolved, d.clusters);
    forall other | AllResolve(w, raw.clusters, other) && PortsFilled(other, d.clusters)
      ensures other == resolved && ResolveAll(w, raw.clusters).1.None?
    {
      ClustersAsWritten(w, raw.clusters, other);
    }
  }

  /** Startup lets run what a reload would, with every cluster resolved once more. */
  lemma StartupAsWritten(w: World, checks: Checks, raw: ConfigData, started: ConfigData)
    ensures Startup(w, checks, Some(raw)) == Ok(started)
       <==> exists d :: Loads(w, checks, raw, d) && started.settings == d.settings && AllResolve(w, d.clusters, started.clusters)
  {
    if Prepare(w, checks, Some(raw)).Ok? {
      var d := Prepare(w, checks, Some(raw)).value;
      ReloadAsWritten(w, checks, raw, d);
      ClustersAsWritten(w, d.clusters, started.clusters);
    }
    forall d | Loads(w, checks, raw, d) ensures Prepare(w, checks, Some(raw)) == Ok(d) {
      ReloadAsWritten(w, checks, raw, d);
    }
  }

  /** So in what runs, after startup as after a reload, a metrics interval left empty is the collection interval in force,
  and every other setting is the written one or its default, as is every port. */
  lemma RunningDefaults(w: World, checks: Checks, raw: ConfigData, d: ConfigData)
    requires Prepare(w, checks, Some(raw)) == Ok(d) || Startup(w, checks, Some(raw)) == Ok(d)
    ensures SettingsFilled(raw.settings, d.settings)
    ensures raw.settings.metrics.interval == "" ==> d.settings.metrics.interval == d.settings.interval
    ensures |d.clusters| == |raw.clusters|
    ensures forall i :: 0 <= i < |d.clusters| ==>
              && d.clusters[i].name == raw.clusters[i].name
              && d.clusters[i].port == if raw.clusters[i].port == 0 then 8080 else raw.clusters[i].port
  {
    var loaded := Prepare(w, checks, Some(raw)).value;
    ReloadAsWritten(w, checks, raw, loaded);
    if Startup(w, checks, Some(raw)) == Ok(d) {
      ClustersAsWritten(w, loaded.clusters, d.clusters);
    }
  }
}
