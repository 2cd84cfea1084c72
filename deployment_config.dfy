/** The base deployment script: set up the GitHub OAuth2 provider, configure the AgentCore
    runtime under the fixed agent name, launch it. Its OAuth, Cognito and configure steps
    are reused by the working deployment script. */
module DeploymentConfig {
  import opened Outcomes
  import opened Conflicts
  import opened Agentcore
  import Naming

  /** `AGENT_NAME`, the only name this script configures. */
  const AgentName := Naming.DefaultAgentName

  /** A failed provider creation still counts as set up when the error says the provider
      already exists or is a duplicate. */
  predicate CreateAccepted(create: Outcome) {
    create.Ok? || ProviderExistsOrDuplicate(create.message)
  }

  /** The decision `setup_github_oauth_provider()` reaches. `region` is the session's region:
      without one, creating the AgentCore control client raises inside the outer `try`, and
      that error ("You must specify a region") is neither "already exists" nor "duplicate". */
  function OAuthDecision(creds: Credentials, region: Option<string>, providers: Listing<string>, create: Outcome): bool {
    if !CredentialsPresent(creds) then false
    else if !IsSet(region) then false
    else if providers.Listed? && ProviderName in providers.items then true
    else CreateAccepted(create)
  }

  /** `setup_github_oauth_provider()`: without both credentials it fails at once, and
      without a region the client cannot be created; a listed `github-provider` is used
      without creating one; otherwise, and also when the listing raises, it creates the
      provider. `createCalled` says whether the create call is made. */
  method SetupGithubOauthProvider(creds: Credentials, region: Option<string>, providers: Listing<string>, create: Outcome)
    returns (ok: bool, createCalled: bool)
    ensures ok == OAuthDecision(creds, region, providers, create)
    ensures createCalled <==>
      CredentialsPresent(creds) && IsSet(region) && !(providers.Listed? && ProviderName in providers.items)
    ensures !CredentialsPresent(creds) || !IsSet(region) ==> !ok
    ensures createCalled ==> (ok <==> CreateAccepted(create))
  {
    if !CredentialsPresent(creds) {
      return false, false;
    }
    if !IsSet(region) {
      return false, false;
    }
    var found := ProviderExists(providers);
    if found {
      return true, false;
    }
    createCalled := true;
    ok := CreateAccepted(create);
  }

  /** The OAuth step fails exactly when a credential is missing, when there is no region,
      or when no provider is listed and the create call raises an error that is neither
      "already exists" nor "duplicate"; a listing that raises is treated like an empty one. */
  lemma OAuthDecisionSpec(creds: Credentials, region: Option<string>, providers: Listing<string>, create: Outcome)
    ensures !OAuthDecision(creds, region, providers, create) <==>
      !CredentialsPresent(creds) || !IsSet(region)
      || (!(providers.Listed? && ProviderName in providers.items)
          && create.Raised? && !ProviderExistsOrDuplicate(create.message))
    ensures OAuthDecision(creds, region, ListingFailed("AccessDenied"), create)
      == OAuthDecision(creds, region, Listed([]), create)
  {
  }

  /** `configure_agentcore_runtime()`: fails without a region; otherwise sets up Cognito
      (falling back to the placeholder) and configures the runtime under `AGENT_NAME`. */
  function ConfigureAgentcoreRuntime(region: Option<string>, cognito: PoolSetup, configure: Outcome): (r: Option<RuntimeConfig>)
    ensures r.Some? <==> IsSet(region) && configure.Ok?
    ensures r.Some? ==> r.value.agentName == AgentName
  {
    if !IsSet(region) then None
    else Configure(AgentName, region, SetupCognitoAuth(cognito), configure)
  }

  /** The configured runtime always carries the fixed default name and the client of
      whichever Cognito configuration was obtained, the placeholder included: a Cognito
      failure never stops this step. */
  lemma ConfiguredRuntime(region: Option<string>, cognito: PoolSetup, configure: Outcome)
    requires IsSet(region) && configure.Ok?
    ensures var r := ConfigureAgentcoreRuntime(region, cognito, configure);
      && r.Some? && r.value.agentName == "sbom_security_agent"
      && r.value.allowedClients == [SetupCognitoAuth(cognito).clientId]
      && (!cognito.PoolCreated? ==> r.value.allowedClients == ["example-client-id"])
  {
  }

  /** `deploy_agent(runtime)`: the launch result, or False when the launch raises; the
      caller tests its truthiness. */
  function DeployAgent(launch: LaunchOutcome): (ok: bool)
    ensures ok <==> LaunchSucceeded(launch)
  {
    match launch
    case Launched(truthy) => truthy
    case LaunchRaised(_) => false
  }

  const MainPlan := [GithubOAuth, ConfigureRuntime, LaunchAgent]

  /** Whether each step of `main()` succeeds in world `w`. */
  function StepOk(w: World, s: Step): bool {
    match s
    case GithubOAuth => OAuthDecision(w.creds, w.region, w.providers, w.create)
    case ConfigureRuntime => ConfigureAgentcoreRuntime(w.region, w.cognito, w.configure).Some?
    case LaunchAgent => DeployAgent(w.launch)
    case _ => true
  }

  /** `main()`: OAuth, configure, launch, returning False at the first step that fails and
      True when all three succeed. */
  method RunMain(w: World) returns (ok: bool, trace: seq<Step>)
    ensures trace == Attempted(MainPlan, s => StepOk(w, s))
    ensures ok <==> AllOk(MainPlan, s => StepOk(w, s))
  {
    trace := [GithubOAuth];
    var oauth, _ := SetupGithubOauthProvider(w.creds, w.region, w.providers, w.create);
    if !oauth {
      return false, trace;
    }
    trace := trace + [ConfigureRuntime];
    var runtime := ConfigureAgentcoreRuntime(w.region, w.cognito, w.configure);
    if runtime.None? {
      return false, trace;
    }
    trace := trace + [LaunchAgent];
    ok := DeployAgent(w.launch);
  }

  /** The run succeeds exactly when the OAuth step succeeds, a region is configured, the
      configure call returns and the launch result is truthy; the Cognito outcome plays no
      part. */
  lemma MainSucceedsIff(w: World)
    ensures AllOk(MainPlan, s => StepOk(w, s)) <==>
      OAuthDecision(w.creds, w.region, w.providers, w.create) && IsSet(w.region) && w.configure.Ok?
      && LaunchSucceeded(w.launch)
  {
    var f := s => StepOk(w, s);
    if OAuthDecision(w.creds, w.region, w.providers, w.create) && IsSet(w.region) && w.configure.Ok?
      && LaunchSucceeded(w.launch) {
      forall i | 0 <= i < |MainPlan|
        ensures f(MainPlan[i])
      {
      }
    } else {
      if !OAuthDecision(w.creds, w.region, w.providers, w.create) {
        assert !f(MainPlan[0]);
      } else if !(IsSet(w.region) && w.configure.Ok?) {
        assert !f(MainPlan[1]);
      } else {
        assert !f(MainPlan[2]);
      }
    }
  }

  /** Without a region the run stops at the OAuth step, even when the provider is listed:
      the client the listing needs cannot be created. */
  lemma NoRegionStopsAtOAuth(w: World)
    requires !IsSet(w.region)
    ensures Attempted(MainPlan, s => StepOk(w, s)) == [GithubOAuth]
    ensures !AllOk(MainPlan, s => StepOk(w, s))
  {
    var f := s => StepOk(w, s);
    assert !f(MainPlan[0]);
  }
}
