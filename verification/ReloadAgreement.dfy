/** Startup resolves a configuration twice and reload once (main.go, internal/models/safe_config.go): where they
agree, where they do not, and what validation is worth after the second resolution. */
module ReloadAgreement {
  import opened Wrappers
  import opened EnvExpansion
  import opened Strings
  import opened Configuration
  import EnvReferences

  // Expanding the field again leaves it as it is.
  predicate Stable(env: Env, s: string) {
    Expand(env, s) == Ok(s)
  }

  predicate ClusterStable(env: Env, cl: ClusterConfig) {
    Stable(env, cl.endpoint) && Stable(env, cl.username) && Stable(env, cl.password)
  }

  lemma ResolveBoolIsIdempotent(env: Env, b: EnvBool)
    requires ResolveBool(env, b).Some?
    ensures ResolveBool(env, ResolveBool(env, b).value) == ResolveBool(env, b)
  {
  }

  lemma SecretOfStable(env: Env, field: string, s: string)
    ensures ExpandSecret(env, field, s) == Ok(s) <==> Stable(env, s)
  {
    SecretIsEmptyExactlyWhenWrittenEmpty(env, field, s);
  }

  // What a first resolution leaves for a second one: a flag that keeps its value, and an empty password
  // only where none is given or the password file is blank.
  ghost predicate ResolvedOnce(w: World, cl: ClusterConfig) {
    && ResolveBool(w.env, cl.insecureSkipVerify) == Some(cl.insecureSkipVerify)
    && (cl.password == "" && cl.passwordFile != "" ==>
          cl.passwordFile in w.files && TrimSpace(w.files[cl.passwordFile]) == "")
  }

  lemma ResolutionSettles(w: World, raw: ClusterConfig)
    requires ResolveCluster(w, raw).1.None?
    ensures ResolvedOnce(w, DefaultPort(ResolveCluster(w, raw).0))
  {
    ResolveBoolIsIdempotent(w.env, raw.insecureSkipVerify);
    SecretIsEmptyExactlyWhenWrittenEmpty(w.env, "password", raw.password);
  }

  lemma ResolveSettledPassword(w: World, cl: ClusterConfig)
    requires ResolvedOnce(w, cl)
    ensures ResolvePasswordOf(w, cl) == (cl, None) <==> Stable(w.env, cl.password)
    ensures ResolvePasswordOf(w, cl).1.None? && !Stable(w.env, cl.password) ==> ResolvePasswordOf(w, cl).0.password != cl.password
  {
    SecretOfStable(w.env, "password", cl.password);
    if cl.password == "" {
      SecretIsEmptyExactlyWhenWrittenEmpty(w.env, "password", "");
    }
  }

  // Resolving a cluster a second time keeps it exactly when its fields are stable; the default port is no matter.
  lemma ResolveTwice(w: World, raw: ClusterConfig, cl: ClusterConfig)
    requires ResolveCluster(w, raw).1.None?
    requires cl == DefaultPort(ResolveCluster(w, raw).0)
    ensures ResolveCluster(w, cl) == (cl, None) <==> ClusterStable(w.env, cl)
    ensures ResolveCluster(w, cl).1.None? && !ClusterStable(w.env, cl) ==> ResolveCluster(w, cl).0 != cl
  {
    ResolutionSettles(w, raw);
    SecretOfStable(w.env, "endpoint", cl.endpoint);
    SecretOfStable(w.env, "username", cl.username);
    ResolveSettledPassword(w, cl);
  }

  lemma {:induction false} ResolveEachPointwise(f: Resolution, clusters: seq<ClusterConfig>)
    requires ResolveEach(f, clusters).1.None?
    ensures forall i :: 0 <= i < |clusters| ==> f(clusters[i]) == (ResolveEach(f, clusters).0[i], None)
  {
    if clusters != [] {
      ResolveEachPointwise(f, clusters[1..]);
      forall i | 0 <= i < |clusters| ensures f(clusters[i]) == (ResolveEach(f, clusters).0[i], None) {
        if i > 0 { assert clusters[i] == clusters[1..][i - 1]; }
      }
    }
  }

  lemma ResolveAllPointwise(w: World, clusters: seq<ClusterConfig>)
    requires ResolveAll(w, clusters).1.None?
    ensures |ResolveAll(w, clusters).0| == |clusters|
    ensures forall i :: 0 <= i < |clusters| ==> ResolveCluster(w, clusters[i]) == (ResolveAll(w, clusters).0[i], None)
  {
    ResolveEachPointwise(Resolving(w), clusters);
    assert forall cl :: Resolving(w)(cl) == ResolveCluster(w, cl);
  }

  /** Reloading an unchanged file in an unchanged world after a successful start always succeeds. It
  reports a changed cluster list exactly when a field that resolution produced would expand again to
  something else, since startup resolves twice and reload once. */
  lemma StartupAndReloadAgreeExactly(w: World, checks: Checks, raw: ConfigData)
    requires Startup(w, checks, Some(raw)).Ok?
    ensures Prepare(w, checks, Some(raw)).Ok?
    ensures var started, reloaded := Startup(w, checks, Some(raw)).value, Prepare(w, checks, Some(raw)).value;
            && started.settings == reloaded.settings
            && (started.clusters == reloaded.clusters
                <==> forall i :: 0 <= i < |reloaded.clusters| ==> ClusterStable(w.env, reloaded.clusters[i]))
  {
    var reloaded := Prepare(w, checks, Some(raw)).value.clusters;
    var started := Startup(w, checks, Some(raw)).value.clusters;
    ResolveAllPointwise(w, raw.clusters);
    ResolveAllPointwise(w, reloaded);
    forall i | 0 <= i < |reloaded| ensures started[i] == reloaded[i] <==> ClusterStable(w.env, reloaded[i]) {
      ResolveTwice(w, raw.clusters[i], reloaded[i]);
    }
  }

  lemma SecondResolutionKeepsComplete(w: World, cl: ClusterConfig)
    requires ResolveCluster(w, cl).1.None?
    requires cl.endpoint != "" && cl.username != "" && (cl.password != "" || cl.passwordFile != "")
    ensures var r := ResolveCluster(w, cl).0;
            && r.name == cl.name && r.port == cl.port
            && r.endpoint != "" && r.username != "" && (r.password != "" || r.passwordFile != "")
  {
    SecretIsEmptyExactlyWhenWrittenEmpty(w.env, "endpoint", cl.endpoint);
    SecretIsEmptyExactlyWhenWrittenEmpty(w.env, "username", cl.username);
    SecretIsEmptyExactlyWhenWrittenEmpty(w.env, "password", cl.password);
  }

  /** What startup and reload let through is acceptable: resolving once more after validation keeps every
  cluster complete and the names distinct. */
  lemma RunningConfigIsAcceptable(w: World, checks: Checks, raw: ConfigData)
    ensures Prepare(w, checks, Some(raw)).Ok? ==> Acceptable(Prepare(w, checks, Some(raw)).value.clusters)
    ensures Startup(w, checks, Some(raw)).Ok? ==> Acceptable(Startup(w, checks, Some(raw)).value.clusters)
  {
    if Prepare(w, checks, Some(raw)).Ok? {
      ValidationAcceptsExactly(Prepare(w, checks, Some(raw)).value.clusters);
    }
    if Startup(w, checks, Some(raw)).Ok? {
      var validated := Prepare(w, checks, Some(raw)).value.clusters;
      ResolveAllPointwise(w, validated);
      var started := ResolveAll(w, validated).0;
      forall i | 0 <= i < |started|
        ensures started[i].name == validated[i].name && started[i].endpoint != "" && started[i].username != ""
        ensures 1 <= started[i].port <= 65535 && (started[i].password != "" || started[i].passwordFile != "")
      {
        assert validated[i] in validated;
        SecondResolutionKeepsComplete(w, validated[i]);
      }
      assert validated[0] in validated && started != [];
      assert Acceptable(started);
    }
  }

  /** So a configuration whose resolved fields hold no reference is not rebuilt by a reload. */
  lemma NoReferenceNoRebuild(w: World, checks: Checks, raw: ConfigData)
    requires Startup(w, checks, Some(raw)).Ok?
    requires forall cl :: cl in Prepare(w, checks, Some(raw)).value.clusters ==>
               && !EnvReferences.ContainsReference(cl.endpoint)
               && !EnvReferences.ContainsReference(cl.username)
               && !EnvReferences.ContainsReference(cl.password)
    ensures Startup(w, checks, Some(raw)).value.clusters == Prepare(w, checks, Some(raw)).value.clusters
  {
    StartupAndReloadAgreeExactly(w, checks, raw);
    var clusters := Prepare(w, checks, Some(raw)).value.clusters;
    forall i | 0 <= i < |clusters| ensures ClusterStable(w.env, clusters[i]) {
      assert clusters[i] in clusters;
      ExpandWithoutReference(w.env, clusters[i].endpoint);
      ExpandWithoutReference(w.env, clusters[i].username);
      ExpandWithoutReference(w.env, clusters[i].password);
    }
  }

  // ---------------------------------------------------------------- a condition on the written fields

  // Neither the text between the references of a field nor what is put in their place holds a dollar sign.
  predicate WithoutDollar(env: Env, s: string) {
    forall i :: 0 <= i < |EnvReferences.Tokens(s)| ==> '$' !in Value(env, EnvReferences.Tokens(s)[i])
  }

  predicate ClusterWithoutDollar(w: World, raw: ClusterConfig) {
    && WithoutDollar(w.env, raw.endpoint) && WithoutDollar(w.env, raw.username) && WithoutDollar(w.env, raw.password)
    && (raw.passwordFile in w.files ==> '$' !in w.files[raw.passwordFile])
  }

  lemma SecretWithoutDollar(env: Env, field: string, s: string)
    requires WithoutDollar(env, s) && ExpandSecret(env, field, s).Ok?
    ensures Stable(env, ExpandSecret(env, field, s).value)
  {
    ExpandTwiceWithoutDollars(env, s);
  }

  lemma {:induction false} TrimSpaceAddsNothing(s: string, c: char)
    requires c !in s
    ensures c !in TrimSpace(s)
    decreases |s|
  {
    if s != "" {
      if IsSpace(s[0]) {
        TrimSpaceAddsNothing(s[1..], c);
      } else if IsSpace(s[|s| - 1]) {
        TrimSpaceAddsNothing(s[..|s| - 1], c);
      }
    }
  }

  lemma ResolvedPasswordIsStable(w: World, cl: ClusterConfig)
    requires WithoutDollar(w.env, cl.password) && (cl.passwordFile in w.files ==> '$' !in w.files[cl.passwordFile])
    requires ResolvePasswordOf(w, cl).1.None?
    ensures Stable(w.env, ResolvePasswordOf(w, cl).0.password)
  {
    if cl.password == "" && cl.passwordFile != "" {
      TrimSpaceAddsNothing(w.files[cl.passwordFile], '$');
      StableWithoutDollar(w.env, TrimSpace(w.files[cl.passwordFile]));
    } else {
      SecretWithoutDollar(w.env, "password", cl.password);
    }
  }

  lemma ResolvedWithoutDollarIsStable(w: World, raw: ClusterConfig)
    requires ClusterWithoutDollar(w, raw) && ResolveCluster(w, raw).1.None?
    ensures ClusterStable(w.env, ResolveCluster(w, raw).0)
  {
    SecretWithoutDollar(w.env, "endpoint", raw.endpoint);
    SecretWithoutDollar(w.env, "username", raw.username);
    var b, endpoint, username := ResolveBool(w.env, raw.insecureSkipVerify).value,
                                 ExpandSecret(w.env, "endpoint", raw.endpoint).value,
                                 ExpandSecret(w.env, "username", raw.username).value;
    ResolvedPasswordIsStable(w, raw.(insecureSkipVerify := b, endpoint := endpoint, username := username));
  }

  /** What can be checked before the start: where no dollar sign is left by the written fields, the variables
  they name, their defaults and the password files, reloading an unchanged file rebuilds nothing. */
  lemma NoDollarNoRebuild(w: World, checks: Checks, raw: ConfigData)
    requires Startup(w, checks, Some(raw)).Ok?
    requires forall cl :: cl in raw.clusters ==> ClusterWithoutDollar(w, cl)
    ensures Startup(w, checks, Some(raw)) == Prepare(w, checks, Some(raw))
  {
    StartupAndReloadAgreeExactly(w, checks, raw);
    ResolveAllPointwise(w, raw.clusters);
    var reloaded := Prepare(w, checks, Some(raw)).value.clusters;
    forall i | 0 <= i < |reloaded| ensures ClusterStable(w.env, reloaded[i]) {
      assert raw.clusters[i] in raw.clusters;
      ResolvedWithoutDollarIsStable(w, raw.clusters[i]);
    }
  }

  // ---------------------------------------------------------------- where they disagree

  lemma WitnessExpansions(env: Env)
    requires env == map["X" := "${Y}", "Y" := "v"]
    ensures Expand(env, "${X}") == Ok("${Y}") && Expand(env, "${Y}") == Ok("v")
    ensures Stable(env, "h") && Stable(env, "u") && Stable(env, "v") && Stable(env, "")
  {
    assert EnvReferences.Text(EnvReferences.Reference("X", None)) == "${X}";
    assert EnvReferences.Text(EnvReferences.Reference("Y", None)) == "${Y}";
    ExpandLoneReference(env, "X");
    ExpandLoneReference(env, "Y");
    StableWithoutDollar(env, "h");
    StableWithoutDollar(env, "u");
    StableWithoutDollar(env, "v");
    StableWithoutDollar(env, "");
  }

  lemma StableWithoutDollar(env: Env, s: string)
    requires '$' !in s
    ensures Stable(env, s)
  {
    if EnvReferences.ContainsReference(s) {
      ReferenceHoldsDollar(s);
      assert false;
    }
    ExpandWithoutReference(env, s);
  }

  ghost function Witness(password: string, passwordFile: string): ClusterConfig {
    ClusterConfig("a", "h", 8080, "u", password, passwordFile, EnvBool("", false))
  }

  lemma ResolveAllOfOne(w: World, raw: ClusterConfig, cl: ClusterConfig)
    requires ResolveCluster(w, raw) == (cl, None)
    ensures ResolveAll(w, [raw]) == ([cl], None)
  {
    ResolvedToTheEnd(Resolving(w), [raw], [cl]);
  }

  lemma WitnessIsAcceptable(password: string, passwordFile: string)
    requires password != ""
    ensures Acceptable([Witness(password, passwordFile)])
  {
  }

  // A single-cluster configuration whose password becomes `once`, and `twice` when resolved again.
  lemma WitnessPrepares(w: World, checks: Checks, settings: Settings, raw: ClusterConfig, once: string, twice: string)
    requires ResolveCluster(w, raw) == (raw.(password := once), None)
    requires ResolveCluster(w, raw.(password := once)) == (raw.(password := twice), None)
    requires raw.port == 8080 && Acceptable([raw.(password := once)])
    requires checks.server(DefaultSettings(settings)) && checks.otel(DefaultSettings(settings))
    ensures Prepare(w, checks, Some(ConfigData(settings, [raw])))
         == Ok(ConfigData(DefaultSettings(settings), [raw.(password := once)]))
    ensures Startup(w, checks, Some(ConfigData(settings, [raw])))
         == Ok(ConfigData(DefaultSettings(settings), [raw.(password := twice)]))
  {
    var one := [raw.(password := once)];
    ResolveAllOfOne(w, raw, one[0]);
    ResolveAllOfOne(w, one[0], raw.(password := twice));
    assert DefaultPorts(one) == one;
    ValidationAcceptsExactly(one);
  }

  // Resolution of a cluster with a plain endpoint, username and flag comes down to its password.
  ghost predicate ResolvesPassword(w: World, raw: ClusterConfig, password: string) {
    if raw.password == "" && raw.passwordFile != ""
    then raw.passwordFile in w.files && TrimSpace(w.files[raw.passwordFile]) == password
    else password != "" && Expand(w.env, raw.password) == Ok(password)
  }

  lemma ResolveWitness(w: World, raw: ClusterConfig, password: string)
    requires raw.insecureSkipVerify.raw == "" && Stable(w.env, raw.endpoint) && Stable(w.env, raw.username)
    requires ResolvesPassword(w, raw, password)
    ensures ResolveCluster(w, raw) == (raw.(password := password), None)
  {
    SecretOfStable(w.env, "endpoint", raw.endpoint);
    SecretOfStable(w.env, "username", raw.username);
    assert raw.(insecureSkipVerify := raw.insecureSkipVerify, endpoint := raw.endpoint, username := raw.username) == raw;
  }

  /** Where a password resolves to a text that expands further, from a variable or from a password
  file, startup runs with what it leads to and the first reload with the text itself. */
  lemma NestedReferenceRebuilds(w: World, checks: Checks, settings: Settings, raw: ClusterConfig, nested: string, value: string)
    requires raw.insecureSkipVerify.raw == "" && Stable(w.env, raw.endpoint) && Stable(w.env, raw.username)
    requires ResolvesPassword(w, raw, nested) && nested != ""
    requires Expand(w.env, nested) == Ok(value) && value != ""
    requires raw.port == 8080 && Acceptable([raw.(password := nested)])
    requires checks.server(DefaultSettings(settings)) && checks.otel(DefaultSettings(settings))
    ensures Startup(w, checks, Some(ConfigData(settings, [raw])))
         == Ok(ConfigData(DefaultSettings(settings), [raw.(password := value)]))
    ensures Prepare(w, checks, Some(ConfigData(settings, [raw])))
         == Ok(ConfigData(DefaultSettings(settings), [raw.(password := nested)]))
  {
    ResolveWitness(w, raw, nested);
    ResolveWitness(w, raw.(password := nested), value);
    WitnessPrepares(w, checks, settings, raw, nested, value);
  }

  /** Two such inputs, with a password taken from a variable that names another variable and from a password
  file: the configuration that starts is not the one an immediate reload loads. */
  lemma NestedReferenceInVariable(w: World, checks: Checks, settings: Settings, raw: ConfigData)
    requires w.env == map["X" := "${Y}", "Y" := "v"]
    requires checks.server(DefaultSettings(settings)) && checks.otel(DefaultSettings(settings))
    requires raw == ConfigData(settings, [Witness("${X}", "")])
    ensures Startup(w, checks, Some(raw)).Ok? && Prepare(w, checks, Some(raw)).Ok?
    ensures Startup(w, checks, Some(raw)).value.clusters != Prepare(w, checks, Some(raw)).value.clusters
  {
    WitnessExpansions(w.env);
    var cl := Witness("${X}", "");
    WitnessIsAcceptable("${Y}", "");
    assert cl.(password := "${Y}") == Witness("${Y}", "");
    NestedReferenceRebuilds(w, checks, settings, cl, "${Y}", "v");
    PasswordsDiffer(cl, "v", "${Y}");
  }

  lemma FileGivesPassword(w: World, cl: ClusterConfig, text: string)
    requires cl.password == "" && cl.passwordFile != "" && cl.passwordFile in w.files && w.files[cl.passwordFile] == text
    requires text != "" && !IsSpace(text[0]) && !IsSpace(text[|text| - 1])
    ensures ResolvesPassword(w, cl, text)
  {
    TrimSpaceKeeps(text);
  }

  lemma NestedReferenceInFile(w: World, checks: Checks, settings: Settings, raw: ConfigData, file: string)
    requires w.env == map["X" := "${Y}", "Y" := "v"]
    requires file != "" && w.files == map[file := "${Y}"]
    requires checks.server(DefaultSettings(settings)) && checks.otel(DefaultSettings(settings))
    requires raw == ConfigData(settings, [Witness("", file)])
    ensures Startup(w, checks, Some(raw)).Ok? && Prepare(w, checks, Some(raw)).Ok?
    ensures Startup(w, checks, Some(raw)).value.clusters != Prepare(w, checks, Some(raw)).value.clusters
  {
    WitnessExpansions(w.env);
    var cl := Witness("", file);
    FileGivesPassword(w, cl, "${Y}");
    WitnessIsAcceptable("${Y}", file);
    assert cl.(password := "${Y}") == Witness("${Y}", file);
    NestedReferenceRebuilds(w, checks, settings, cl, "${Y}", "v");
    PasswordsDiffer(cl, "v", "${Y}");
  }

  lemma PasswordsDiffer(cl: ClusterConfig, a: string, b: string)
    requires a != b
    ensures [cl.(password := a)] != [cl.(password := b)]
  {
    assert [cl.(password := a)][0].password != [cl.(password := b)][0].password;
  }
}
