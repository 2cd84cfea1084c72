/** The working deployment script: choose the name first (a generated one under a mode flag),
    run the base script's OAuth and configure steps, set up Cognito again, reconfigure the
    runtime under the chosen name and launch it once. A deploy under a generated name is
    recorded in `.env` as `DEPLOYED_AGENT_NAME=`. */
module Working {
  import opened Outcomes
  import opened Conflicts
  import opened Agentcore
  import opened Naming
  import opened EnvFile
  import DeploymentConfig

  /** What the second Cognito setup and the reconfigure call do. */
  datatype Reconfigure = Reconfigure(cognito: PoolSetup, configure: Outcome)

  const Plan := [GithubOAuth, ConfigureRuntime, CognitoAuth, ReconfigureRuntime, LaunchAgent]

  /** Whether each step of `deploy_with_conflict_resolution` succeeds. The OAuth and first
      configure steps are the base script's; the second Cognito setup has no placeholder
      fallback. */
  function StepOk(w: World, again: Reconfigure, s: Step): bool {
    match s
    case GithubOAuth => DeploymentConfig.OAuthDecision(w.creds, w.region, w.providers, w.create)
    case ConfigureRuntime => DeploymentConfig.ConfigureAgentcoreRuntime(w.region, w.cognito, w.configure).Some?
    case CognitoAuth => again.cognito.PoolCreated?
    case ReconfigureRuntime => again.configure.Ok?
    case LaunchAgent => LaunchSucceeded(w.launch)
  }

  /** The steps attempted, case by case: each step is reached only after all earlier ones
      succeed. */
  lemma PlanTrace(w: World, again: Reconfigure)
    ensures var f := s => StepOk(w, again, s);
      Attempted(Plan, f) ==
        if !f(GithubOAuth) then [GithubOAuth]
        else if !f(ConfigureRuntime) then [GithubOAuth, ConfigureRuntime]
        else if !f(CognitoAuth) then [GithubOAuth, ConfigureRuntime, CognitoAuth]
        else if !f(ReconfigureRuntime) then [GithubOAuth, ConfigureRuntime, CognitoAuth, ReconfigureRuntime]
        else Plan
  {
    var f := s => StepOk(w, again, s);
    assert Plan[1..] == [ConfigureRuntime, CognitoAuth, ReconfigureRuntime, LaunchAgent];
    assert Plan[1..][1..] == [CognitoAuth, ReconfigureRuntime, LaunchAgent];
    assert Plan[1..][1..][1..] == [ReconfigureRuntime, LaunchAgent];
    assert Plan[1..][1..][1..][1..] == [LaunchAgent];
    DeploySucceedsIff(w, again);
    assert Plan[1..][1..][1..][1..][1..] == [];
  }

  /** What one run leaves behind. */
  datatype Deployment = Deployment(ok: bool, trace: seq<Step>, launched: Option<RuntimeConfig>, env: string)

  /** The runtime the reconfigure step builds: the chosen name, the region, and the second
      Cognito pool's discovery URL and client. */
  function Reconfigured(agentName: string, w: World, pool: UserPool): RuntimeConfig
    requires w.region.Some?
  {
    RuntimeConfig(Entrypoint, RequirementsFile, agentName, w.region.value, pool.discoveryUrl, [pool.clientId])
  }

  /** What `deploy_with_conflict_resolution` leaves behind, step by step. */
  function Deploy(base: string, autoUpdate: bool, forceRecreate: bool, now: DateTime, nowText: string,
                  w: World, again: Reconfigure, envText: string, envWritable: bool): Deployment
    requires ValidTime(now)
  {
    var agentName := ChooseAgentName(base, autoUpdate, forceRecreate, now);
    if !DeploymentConfig.OAuthDecision(w.creds, w.region, w.providers, w.create) then
      Deployment(false, [GithubOAuth], None, envText)
    else if DeploymentConfig.ConfigureAgentcoreRuntime(w.region, w.cognito, w.configure).None? then
      Deployment(false, [GithubOAuth, ConfigureRuntime], None, envText)
    else if !again.cognito.PoolCreated? then
      Deployment(false, [GithubOAuth, ConfigureRuntime, CognitoAuth], None, envText)
    else if again.configure.Raised? then
      Deployment(false, [GithubOAuth, ConfigureRuntime, CognitoAuth, ReconfigureRuntime], None, envText)
    else
      var config := Reconfigured(agentName, w, again.cognito.pool);
      match w.launch
      case Launched(truthy) =>
        Deployment(truthy, Plan, Some(config),
                   if agentName != base && envWritable then AppendDeployedName(envText, nowText, agentName) else envText)
      case LaunchRaised(_) => Deployment(false, Plan, Some(config), envText)
  }

  /** `deploy_with_conflict_resolution(base, auto_update, force_recreate)`. `now` is the
      clock reading the name is generated from, `nowText` the later `str(datetime.now())`
      written into the `.env` comment. `launched` is the runtime configuration launched,
      if the launch is reached. */
  method DeployWithConflictResolution(base: string, autoUpdate: bool, forceRecreate: bool,
                                      now: DateTime, nowText: string, w: World, again: Reconfigure,
                                      envText: string, envWritable: bool)
    returns (r: Deployment)
    requires ValidTime(now)
    ensures r == Deploy(base, autoUpdate, forceRecreate, now, nowText, w, again, envText, envWritable)
  {
    var agentName := ChooseAgentName(base, autoUpdate, forceRecreate, now);
    var trace := [GithubOAuth];
    var oauth, _ := DeploymentConfig.SetupGithubOauthProvider(w.creds, w.region, w.providers, w.create);
    if !oauth {
      return Deployment(false, trace, None, envText);
    }
    trace := trace + [ConfigureRuntime];
    var runtime := DeploymentConfig.ConfigureAgentcoreRuntime(w.region, w.cognito, w.configure);
    if runtime.None? {
      return Deployment(false, trace, None, envText);
    }
    trace := trace + [CognitoAuth];
    if !again.cognito.PoolCreated? {
      return Deployment(false, trace, None, envText);
    }
    trace := trace + [ReconfigureRuntime];
    if again.configure.Raised? {
      return Deployment(false, trace, None, envText);
    }
    var config := Reconfigured(agentName, w, again.cognito.pool);
    trace := trace + [LaunchAgent];
    var env := envText;
    match w.launch
    case Launched(truthy) =>
      if agentName != base && envWritable {
        env := AppendDeployedName(envText, nowText, agentName);
      }
      r := Deployment(truthy, trace, Some(config), env);
    case LaunchRaised(_) =>
      r := Deployment(false, trace, Some(config), env);
  }

  /** The run attempts the five steps in order and stops at the first failure; it succeeds
      exactly when all five do. */
  lemma DeployStopsAtFirstFailure(base: string, autoUpdate: bool, forceRecreate: bool, now: DateTime,
                                  nowText: string, w: World, again: Reconfigure, envText: string,
                                  envWritable: bool)
    requires ValidTime(now)
    ensures var r := Deploy(base, autoUpdate, forceRecreate, now, nowText, w, again, envText, envWritable);
      r.trace == Attempted(Plan, s => StepOk(w, again, s))
      && (r.ok <==> AllOk(Plan, s => StepOk(w, again, s)))
  {
    DeployShape(base, autoUpdate, forceRecreate, now, nowText, w, again, envText, envWritable);
    PlanTrace(w, again);
    PlanAllOk(w, again);
  }

  /** The run's trace and truthiness, step by step. */
  lemma DeployShape(base: string, autoUpdate: bool, forceRecreate: bool, now: DateTime,
                    nowText: string, w: World, again: Reconfigure, envText: string, envWritable: bool)
    requires ValidTime(now)
    ensures var r := Deploy(base, autoUpdate, forceRecreate, now, nowText, w, again, envText, envWritable);
      && r.trace ==
        (if !StepOk(w, again, GithubOAuth) then [GithubOAuth]
         else if !StepOk(w, again, ConfigureRuntime) then [GithubOAuth, ConfigureRuntime]
         else if !StepOk(w, again, CognitoAuth) then [GithubOAuth, ConfigureRuntime, CognitoAuth]
         else if !StepOk(w, again, ReconfigureRuntime) then [GithubOAuth, ConfigureRuntime, CognitoAuth, ReconfigureRuntime]
         else Plan)
      && (r.ok <==> StepOk(w, again, GithubOAuth) && StepOk(w, again, ConfigureRuntime) && StepOk(w, again, CognitoAuth)
                    && StepOk(w, again, ReconfigureRuntime) && StepOk(w, again, LaunchAgent))
  {
  }

  /** All five steps succeed exactly when each does. */
  lemma PlanAllOk(w: World, again: Reconfigure)
    ensures AllOk(Plan, s => StepOk(w, again, s)) <==>
      StepOk(w, again, GithubOAuth) && StepOk(w, again, ConfigureRuntime) && StepOk(w, again, CognitoAuth)
      && StepOk(w, again, ReconfigureRuntime) && StepOk(w, again, LaunchAgent)
  {
    var f := s => StepOk(w, again, s);
    if !AllOk(Plan, f) {
      var i :| 0 <= i < |Plan| && !f(Plan[i]);
    } else {
      assert f(Plan[0]) && f(Plan[1]) && f(Plan[2]) && f(Plan[3]) && f(Plan[4]);
    }
  }

  /** The launch is reached only after the four earlier steps succeed, and then the runtime
      launched is the reconfigured one under the chosen name; `.env` changes only when the
      launch returns, truthy or not, under a generated name and the file can be written. */
  lemma DeployOutputs(base: string, autoUpdate: bool, forceRecreate: bool, now: DateTime,
                      nowText: string, w: World, again: Reconfigure, envText: string, envWritable: bool)
    requires ValidTime(now)
    ensures var r := Deploy(base, autoUpdate, forceRecreate, now, nowText, w, again, envText, envWritable);
      var name := ChooseAgentName(base, autoUpdate, forceRecreate, now);
      && (r.launched.Some? <==> LaunchAgent in r.trace)
      && (r.launched.Some? ==> (r.launched.value.agentName == name && r.launched.value.region == w.region.value
            && r.launched.value.allowedClients == [again.cognito.pool.clientId]))
      && (r.env == if r.launched.Some? && w.launch.Launched? && (autoUpdate || forceRecreate) && envWritable
                   then AppendDeployedName(envText, nowText, name) else envText)
  {
    ChooseAgentNameSpec(base, autoUpdate, forceRecreate, now);
    assert LaunchAgent !in [GithubOAuth, ConfigureRuntime, CognitoAuth, ReconfigureRuntime];
    assert LaunchAgent in Plan by {
      assert Plan[4] == LaunchAgent;
    }
  }

  /** The runtime that is launched carries the chosen name: the second configure replaces the
      base script's fixed name, unlike the first configure, which always uses
      `sbom_security_agent`. */
  lemma LaunchedUnderChosenName(base: string, autoUpdate: bool, forceRecreate: bool, now: DateTime,
                                w: World, again: Reconfigure)
    requires ValidTime(now) && IsSet(w.region) && w.configure.Ok? && again.cognito.PoolCreated?
    ensures var first := DeploymentConfig.ConfigureAgentcoreRuntime(w.region, w.cognito, w.configure);
      first.Some? && first.value.agentName == DefaultAgentName
    ensures var name := ChooseAgentName(base, autoUpdate, forceRecreate, now);
      var second := Configure(name, w.region, SetupCognitoAuth(again.cognito), again.configure);
      again.configure.Ok? ==> (second.Some? && second.value.agentName == name
        && (autoUpdate || forceRecreate ==> second.value.agentName != base))
  {
    ChooseAgentNameSpec(base, autoUpdate, forceRecreate, now);
  }

  /** A run succeeds exactly when OAuth succeeds, a region is set, the first configure
      returns, the second Cognito setup creates a pool, the reconfigure returns and the launch
      result is truthy; a launch error is a failure whatever its message. */
  lemma DeploySucceedsIff(w: World, again: Reconfigure)
    ensures AllOk(Plan, s => StepOk(w, again, s)) <==>
      DeploymentConfig.OAuthDecision(w.creds, w.region, w.providers, w.create) && IsSet(w.region) && w.configure.Ok?
      && again.cognito.PoolCreated? && again.configure.Ok? && LaunchSucceeded(w.launch)
  {
    var f := s => StepOk(w, again, s);
    if !AllOk(Plan, f) {
      var i :| 0 <= i < |Plan| && !f(Plan[i]);
    } else {
      assert f(Plan[0]) && f(Plan[1]) && f(Plan[2]) && f(Plan[3]) && f(Plan[4]);
    }
  }

  /** Under a mode flag the deployed name differs from the base, and the `.env` append
      reads back as the old lines, the comment and one `DEPLOYED_AGENT_NAME=` line holding
      that name. */
  lemma DeployedNameRecorded(base: string, autoUpdate: bool, forceRecreate: bool, now: DateTime,
                             nowText: string, envText: string)
    requires ValidTime(now) && (autoUpdate || forceRecreate) && NameChars(base) && '\n' !in nowText
    ensures var name := ChooseAgentName(base, autoUpdate, forceRecreate, now);
      name != base
      && ReadLines(AppendDeployedName(envText, nowText, name)) ==
         ReadLines(envText + "\n") + [DeployedComment(nowText), KeyLine("DEPLOYED_AGENT_NAME=", name)]
  {
    ChooseAgentNameSpec(base, autoUpdate, forceRecreate, now);
    assert NameChars(ModeSegment(autoUpdate));
    UniqueNameSingleLine(base, ModeSegment(autoUpdate), now);
    DeployedNameLines(envText, nowText, ChooseAgentName(base, autoUpdate, forceRecreate, now));
  }

  /** `main()`: the flag check, then one run; `ok` is the run's truthiness. */
  method RunMain(autoUpdate: bool, forceRecreate: bool, agentName: string, now: DateTime, nowText: string,
              w: World, again: Reconfigure, envText: string, envWritable: bool)
    returns (ok: bool, env: string)
    requires ValidTime(now)
    ensures !FlagsAccepted(autoUpdate, forceRecreate) ==> !ok && env == envText
    ensures FlagsAccepted(autoUpdate, forceRecreate) ==>
      (ok <==> AllOk(Plan, s => StepOk(w, again, s)))
    ensures FlagsAccepted(autoUpdate, forceRecreate) ==>
      env == Deploy(agentName, autoUpdate, forceRecreate, now, nowText, w, again, envText, envWritable).env
  {
    if !FlagsAccepted(autoUpdate, forceRecreate) {
      return false, envText;
    }
    var r := DeployWithConflictResolution(agentName, autoUpdate, forceRecreate, now, nowText, w, again,
                                          envText, envWritable);
    DeployStopsAtFirstFailure(agentName, autoUpdate, forceRecreate, now, nowText, w, again, envText, envWritable);
    ok, env := r.ok, r.env;
  }
}
