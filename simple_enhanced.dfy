/** The simplified enhanced deployment script: OAuth, Cognito, configure under the requested
    name, then one launch. A launch error that looks like a conflict only produces advice:
    with a mode flag a generated name is appended to `.env` as `AGENT_NAME=`, without one a
    name is suggested. Nothing is retried. */
module SimpleEnhanced {
  import opened Text
  import opened Outcomes
  import opened Conflicts
  import opened Agentcore
  import opened Naming
  import opened EnvFile
  import DeploymentConfig

  /** A failed provider creation counts as set up only when the error says "already
      exists". */
  predicate CreateAccepted(create: Outcome) {
    create.Ok? || ProviderAlreadyExists(create.message)
  }

  /** The decision `setup_github_oauth_provider()` reaches. Without a session region the
      AgentCore control client cannot be created, and that error, raised inside the outer
      `try`, does not say "already exists". */
  function OAuthDecision(creds: Credentials, region: Option<string>, providers: Listing<string>, create: Outcome): bool {
    if !CredentialsPresent(creds) then false
    else if !IsSet(region) then false
    else if providers.Listed? && ProviderName in providers.items then true
    else CreateAccepted(create)
  }

  /** `setup_github_oauth_provider()`: without both credentials it fails at once, and
      without a region the client cannot be created; a listed `github-provider` is accepted
      as it is; otherwise, and also when the listing raises, it creates the provider. */
  method SetupGithubOauthProvider(creds: Credentials, region: Option<string>, providers: Listing<string>, create: Outcome)
    returns (ok: bool, createCalled: bool)
    ensures ok == OAuthDecision(creds, region, providers, create)
    ensures createCalled <==>
      CredentialsPresent(creds) && IsSet(region) && !(providers.Listed? && ProviderName in providers.items)
    ensures createCalled ==> (ok <==> CreateAccepted(create))
  {
    if !CredentialsPresent(creds) {
      return false, false;
    }
    if !IsSet(region) {
      return false, false;
    }
    var found := ProviderExists(providers);
    if found {
      return true, false;
    }
    createCalled := true;
    ok := CreateAccepted(create);
  }

  /** This script accepts the OAuth step in every world the base script does except where a
      "duplicate" error is concerned: every success here is a success there, and a
      "duplicate provider" creation error fails here only. */
  lemma OAuthNarrowerThanBase(creds: Credentials, region: Option<string>, providers: Listing<string>, create: Outcome)
    ensures OAuthDecision(creds, region, providers, create) ==>
      DeploymentConfig.OAuthDecision(creds, region, providers, create)
    ensures var c := Credentials(Some("id"), Some("secret"));
      DeploymentConfig.OAuthDecision(c, Some("us-east-1"), Listed([]), Raised("duplicate provider"))
      && !OAuthDecision(c, Some("us-east-1"), Listed([]), Raised("duplicate provider"))
  {
    ConfigProviderTestWider(if create.Raised? then create.message else "");
    ConfigProviderTestWider("");
    assert ProviderName !in [];
  }

  /** What `deploy_with_conflict_handling` leaves behind: its truthiness, the `.env` text and
      the name it advises, if any. */
  datatype Handling = Handling(ok: bool, env: string, advised: Option<string>)

  /** The conflict case with a mode flag: the generated name of that mode. */
  function ConflictName(agentName: string, autoUpdate: bool, now: DateTime): string
    requires ValidTime(now)
  {
    UniqueAgentName(agentName, now, ModeSegment(autoUpdate))
  }

  /** `deploy_with_conflict_handling(...)`: one launch. Any raised error makes it return
      False; a conflict with a mode flag appends the generated name to `.env` when the file
      can be written, and a conflict without a flag only suggests a name. */
  function DeployWithConflictHandling(launch: LaunchOutcome, agentName: string, autoUpdate: bool,
                                      forceRecreate: bool, now: DateTime, envText: string,
                                      envWritable: bool): (r: Handling)
    requires ValidTime(now)
  {
    match launch
    case Launched(truthy) => Handling(truthy, envText, None)
    case LaunchRaised(message) =>
      if !SimpleConflict(message) then Handling(false, envText, None)
      else if autoUpdate || forceRecreate then
        var name := ConflictName(agentName, autoUpdate, now);
        Handling(false, if envWritable then AppendConflictName(envText, name) else envText, Some(name))
      else Handling(false, envText, Some(SuggestedAgentName(agentName, now)))
  }

  /** Every launch error is a failure, conflict or not; only a conflict yields advice, and
      `.env` changes only for a conflict under a mode flag with a writable file, by exactly
      the append of the generated name. */
  lemma ConflictHandlingSpec(launch: LaunchOutcome, agentName: string, autoUpdate: bool,
                             forceRecreate: bool, now: DateTime, envText: string, envWritable: bool)
    requires ValidTime(now)
    ensures var r := DeployWithConflictHandling(launch, agentName, autoUpdate, forceRecreate, now, envText, envWritable);
      && (r.ok <==> LaunchSucceeded(launch))
      && (r.advised.Some? <==> launch.LaunchRaised? && SimpleConflict(launch.message))
      && (r.advised.Some? ==> r.advised.value != agentName)
      && (r.env != envText ==>
            launch.LaunchRaised? && SimpleConflict(launch.message) && (autoUpdate || forceRecreate)
            && envWritable && r.env == AppendConflictName(envText, r.advised.value))
      && (launch.LaunchRaised? && SimpleConflict(launch.message) && (autoUpdate || forceRecreate) ==>
            r.advised == Some(UniqueAgentName(agentName, now, if autoUpdate then "update" else "recreate")))
  {
    UniqueNameShape(agentName, ModeSegment(autoUpdate), now);
    SuggestedNameShape(agentName, now, "update", now);
  }

  /** After a conflict under a mode flag the generated name becomes the last `AGENT_NAME=`
      line of `.env`, so a later load of the file picks it up; the earlier lines stay. */
  lemma GeneratedNameSaved(message: string, agentName: string, autoUpdate: bool, now: DateTime, envText: string)
    requires ValidTime(now) && NameChars(agentName) && SimpleConflict(message)
    ensures var r := DeployWithConflictHandling(LaunchRaised(message), agentName, autoUpdate, true, now, envText, true);
      r.advised.Some?
      && KeyLines(ReadLines(r.env), "AGENT_NAME=") ==
         KeyLines(ReadLines(envText + "\n"), "AGENT_NAME=") + [KeyLine("AGENT_NAME=", r.advised.value)]
  {
    var name := ConflictName(agentName, autoUpdate, now);
    ConflictBranch(message, agentName, autoUpdate, now, envText);
    ConflictNameSingleLine(agentName, autoUpdate, now);
    ConflictNameAddsLine(envText, name);
  }

  lemma ConflictBranch(message: string, agentName: string, autoUpdate: bool, now: DateTime, envText: string)
    requires ValidTime(now) && SimpleConflict(message)
    ensures DeployWithConflictHandling(LaunchRaised(message), agentName, autoUpdate, true, now, envText, true)
      == Handling(false, AppendConflictName(envText, ConflictName(agentName, autoUpdate, now)),
                  Some(ConflictName(agentName, autoUpdate, now)))
  {
  }

  lemma ConflictNameSingleLine(agentName: string, autoUpdate: bool, now: DateTime)
    requires ValidTime(now) && NameChars(agentName)
    ensures '\n' !in ConflictName(agentName, autoUpdate, now)
  {
    assert NameChars(ModeSegment(autoUpdate));
    UniqueNameSingleLine(agentName, ModeSegment(autoUpdate), now);
  }

  const MainPlan := [GithubOAuth, CognitoAuth, ConfigureRuntime, LaunchAgent]

  /** The command line: the two mode flags and `--agent-name`. */
  datatype Args = Args(autoUpdate: bool, forceRecreate: bool, agentName: string)

  /** Whether each step of `main()` succeeds; the Cognito step always does. */
  function StepOk(args: Args, w: World, s: Step): bool {
    match s
    case GithubOAuth => OAuthDecision(w.creds, w.region, w.providers, w.create)
    case ConfigureRuntime => Configure(args.agentName, w.region, SetupCognitoAuth(w.cognito), w.configure).Some?
    case LaunchAgent => LaunchSucceeded(w.launch)
    case _ => true
  }

  /** `main()`: the flag check, then OAuth, Cognito, configure under `--agent-name` and one
      launch, returning False at the first failure. `env` is the `.env` text afterwards and
      `advised` the name printed for the next run. */
  method RunMain(args: Args, w: World, now: DateTime, envText: string, envWritable: bool)
    returns (ok: bool, trace: seq<Step>, env: string, advised: Option<string>)
    requires ValidTime(now)
    ensures !FlagsAccepted(args.autoUpdate, args.forceRecreate) ==> !ok && trace == [] && env == envText
    ensures FlagsAccepted(args.autoUpdate, args.forceRecreate) ==>
      && trace == (if !StepOk(args, w, GithubOAuth) then [GithubOAuth]
                   else if !StepOk(args, w, ConfigureRuntime) then [GithubOAuth, CognitoAuth, ConfigureRuntime]
                   else MainPlan)
      && (ok <==> StepOk(args, w, GithubOAuth) && StepOk(args, w, ConfigureRuntime) && StepOk(args, w, LaunchAgent))
    ensures LaunchAgent in trace ==>
      var h := DeployWithConflictHandling(w.launch, args.agentName, args.autoUpdate, args.forceRecreate,
                                          now, envText, envWritable);
      env == h.env && advised == h.advised
    ensures LaunchAgent !in trace ==> env == envText && advised == None
  {
    env, advised := envText, None;
    if !FlagsAccepted(args.autoUpdate, args.forceRecreate) {
      return false, [], env, advised;
    }
    trace := [GithubOAuth];
    var oauth, _ := SetupGithubOauthProvider(w.creds, w.region, w.providers, w.create);
    if !oauth {
      return false, trace, env, advised;
    }
    trace := trace + [CognitoAuth];
    var auth := SetupCognitoAuth(w.cognito);
    trace := trace + [ConfigureRuntime];
    var runtime := Configure(args.agentName, w.region, auth, w.configure);
    if runtime.None? {
      return false, trace, env, advised;
    }
    trace := trace + [LaunchAgent];
    var h := DeployWithConflictHandling(w.launch, args.agentName, args.autoUpdate, args.forceRecreate,
                                        now, envText, envWritable);
    ok, env, advised := h.ok, h.env, h.advised;
  }

  /** Where the stop-at-first-failure trace of `main()` ends; the Cognito step never fails. */
  lemma MainTrace(args: Args, w: World)
    ensures var f := s => StepOk(args, w, s);
      Attempted(MainPlan, f) ==
        if !f(GithubOAuth) then [GithubOAuth]
        else if !f(ConfigureRuntime) then [GithubOAuth, CognitoAuth, ConfigureRuntime]
        else MainPlan
  {
    var f := s => StepOk(args, w, s);
    assert MainPlan[1..] == [CognitoAuth, ConfigureRuntime, LaunchAgent];
    assert MainPlan[1..][1..] == [ConfigureRuntime, LaunchAgent];
    assert MainPlan[1..][1..][1..] == [LaunchAgent];
    assert f(CognitoAuth);
  }

  /** A run succeeds exactly when the launch itself does (after OAuth and configure): a
      conflict never turns into a success, and the generated name is never retried. */
  lemma MainSucceedsIff(args: Args, w: World)
    ensures AllOk(MainPlan, s => StepOk(args, w, s)) <==>
      OAuthDecision(w.creds, w.region, w.providers, w.create) && IsSet(w.region) && w.configure.Ok?
      && LaunchSucceeded(w.launch)
  {
    var f := s => StepOk(args, w, s);
    if OAuthDecision(w.creds, w.region, w.providers, w.create) && IsSet(w.region) && w.configure.Ok?
      && LaunchSucceeded(w.launch) {
      forall i | 0 <= i < |MainPlan|
        ensures f(MainPlan[i])
      {
      }
    } else {
      if !OAuthDecision(w.creds, w.region, w.providers, w.create) {
        assert !f(MainPlan[0]);
      } else if !(IsSet(w.region) && w.configure.Ok?) {
        assert !f(MainPlan[2]);
      } else {
        assert !f(MainPlan[3]);
      }
    }
  }
}
