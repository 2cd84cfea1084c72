/** What the deployment scripts share: the GitHub OAuth provider scan, the Cognito
    configuration with its placeholder fallback, the AgentCore runtime configuration, the
    launch outcome, and the step sequence that stops at the first failing step. */
module Agentcore {
  import opened Text
  import opened Outcomes
  import Discovery

  /** The name every script gives the GitHub OAuth2 credential provider. */
  const ProviderName := "github-provider"

  const Entrypoint := "sbom_agent.py"
  const RequirementsFile := "requirements.txt"

  /** The scan of `list_oauth2_credential_providers()` for a provider named
      `github-provider`; `names` holds each provider's `name` in listing order. */
  method ProviderListed(names: seq<string>) returns (found: bool)
    ensures found <==> ProviderName in names
  {
    var i := 0;
    while i < |names|
      invariant 0 <= i <= |names|
      invariant ProviderName !in names[..i]
    {
      if names[i] == ProviderName {
        return true;
      }
      i := i + 1;
    }
    assert names[..i] == names;
    return false;
  }

  /** The scan over a listing that may have raised: a raised listing finds nothing. */
  method ProviderExists(providers: Listing<string>) returns (found: bool)
    ensures found <==> providers.Listed? && ProviderName in providers.items
  {
    found := false;
    if providers.Listed? {
      found := ProviderListed(providers.items);
    }
  }

  // ---------------------------------------------------------------------------------------
  // Cognito

  /** The user pool `utils.setup_cognito_user_pool()` reports. */
  datatype UserPool = UserPool(discoveryUrl: string, clientId: string, poolId: string, bearerToken: string)

  /** What `setup_cognito_user_pool()` does: return a pool, return something falsy, or
      raise. */
  datatype PoolSetup = PoolCreated(pool: UserPool) | PoolFalsy | PoolRaised(message: string)

  /** The dictionary `setup_cognito_auth` returns; the placeholder has no pool id and no
      bearer token. */
  datatype AuthConfig = AuthConfig(discoveryUrl: string, clientId: string,
                                   poolId: Option<string>, bearerToken: Option<string>)

  const PlaceholderRegion := "us-east-1"
  const PlaceholderPoolId := "us-east-1_EXAMPLE"
  /** The placeholder discovery URL has the shape of a real pool's URL: it is
      `https://cognito-idp.us-east-1.amazonaws.com/us-east-1_EXAMPLE/.well-known/openid-configuration`,
      the URL the agent information script builds for that pool id and region. */
  const PlaceholderDiscoveryUrl := Discovery.DiscoveryUrl(PlaceholderRegion, PlaceholderPoolId)
  const PlaceholderClientId := "example-client-id"

  const Placeholder := AuthConfig(PlaceholderDiscoveryUrl, PlaceholderClientId, None, None)

  /** `setup_cognito_auth()`: the created pool's settings, or the development placeholder
      when the pool setup returns nothing or raises. It never fails. */
  function SetupCognitoAuth(setup: PoolSetup): (c: AuthConfig)
    ensures c.poolId.Some? <==> setup.PoolCreated?
    ensures setup.PoolCreated? ==>
      c.discoveryUrl == setup.pool.discoveryUrl && c.clientId == setup.pool.clientId
      && c.poolId == Some(setup.pool.poolId) && c.bearerToken == Some(setup.pool.bearerToken)
    ensures !setup.PoolCreated? ==> c == Placeholder
  {
    match setup
    case PoolCreated(p) => AuthConfig(p.discoveryUrl, p.clientId, Some(p.poolId), Some(p.bearerToken))
    case _ => Placeholder
  }

  // ---------------------------------------------------------------------------------------
  // Runtime configuration and launch

  /** The arguments of `Runtime().configure(...)` that the scripts vary. */
  datatype RuntimeConfig = RuntimeConfig(entrypoint: string, requirementsFile: string,
                                         agentName: string, region: string,
                                         discoveryUrl: string, allowedClients: seq<string>)

  /** A configure step: no region configured (unset or empty) fails before any call;
      otherwise the runtime is configured for `agentName` with a JWT authorizer that allows
      only the Cognito client, unless `configure` raises. */
  function Configure(agentName: string, region: Option<string>, auth: AuthConfig, outcome: Outcome): (r: Option<RuntimeConfig>)
    ensures r.Some? <==> IsSet(region) && outcome.Ok?
    ensures r.Some? ==> (r.value.agentName == agentName && r.value.region == region.value
      && r.value.entrypoint == Entrypoint && r.value.requirementsFile == RequirementsFile
      && r.value.discoveryUrl == auth.discoveryUrl && r.value.allowedClients == [auth.clientId])
  {
    if !IsSet(region) then None
    else if outcome.Raised? then None
    else Some(RuntimeConfig(Entrypoint, RequirementsFile, agentName, region.value, auth.discoveryUrl, [auth.clientId]))
  }

  /** What `agentcore_runtime.launch()` does: return a result whose truthiness the caller
      tests, or raise. */
  datatype LaunchOutcome = Launched(truthy: bool) | LaunchRaised(message: string)

  predicate LaunchSucceeded(l: LaunchOutcome) {
    l.Launched? && l.truthy
  }

  /** What the environment, AWS, Cognito and the toolkit do during one deployment run: the
      GitHub credentials, the provider listing, the provider creation, the configured
      region, the Cognito pool setup, the configure call and the launch. */
  datatype World = World(creds: Credentials, providers: Listing<string>, create: Outcome,
                         region: Option<string>, cognito: PoolSetup, configure: Outcome,
                         launch: LaunchOutcome)

  /** Every script's `main` refuses `--auto-update` together with `--force-recreate`. */
  predicate FlagsAccepted(autoUpdate: bool, forceRecreate: bool) {
    !(autoUpdate && forceRecreate)
  }

  // ---------------------------------------------------------------------------------------
  // Step sequences

  datatype Step = GithubOAuth | CognitoAuth | ConfigureRuntime | ReconfigureRuntime | LaunchAgent

  /** The steps a script runs when each step either succeeds or makes the script return
      False: every step in turn, up to and including the first that fails. */
  function Attempted(plan: seq<Step>, ok: Step -> bool): (trace: seq<Step>)
    ensures trace <= plan
    ensures plan != [] ==> trace != []
  {
    if plan == [] then []
    else if !ok(plan[0]) then [plan[0]]
    else [plan[0]] + Attempted(plan[1..], ok)
  }

  predicate AllOk(plan: seq<Step>, ok: Step -> bool) {
    forall i :: 0 <= i < |plan| ==> ok(plan[i])
  }

  /** Every attempted step but the last succeeded; a run that stops early stopped at a
      failure; every step is attempted exactly when no step fails before it, and the run
      reaches the end of the plan with all steps succeeding exactly when every step
      succeeds. */
  lemma {:induction false} AttemptedSpec(plan: seq<Step>, ok: Step -> bool)
    ensures var trace := Attempted(plan, ok);
      && (forall i :: 0 <= i < |trace| - 1 ==> ok(trace[i]))
      && (|trace| < |plan| ==> !ok(trace[|trace| - 1]))
      && (AllOk(plan, ok) <==> trace == plan && (plan == [] || ok(plan[|plan| - 1])))
  {
    AttemptedPrefixOk(plan, ok);
    AttemptedStopsAtLast(plan, ok);
    AttemptedAllOk(plan, ok);
  }

  lemma {:induction false} AttemptedPrefixOk(plan: seq<Step>, ok: Step -> bool)
    ensures forall i :: 0 <= i < |Attempted(plan, ok)| - 1 ==> ok(Attempted(plan, ok)[i])
  {
    if plan != [] && ok(plan[0]) {
      AttemptedPrefixOk(plan[1..], ok);
      var rest := Attempted(plan[1..], ok);
      var trace := [plan[0]] + rest;
      assert Attempted(plan, ok) == trace;
      forall i | 0 <= i < |trace| - 1
        ensures ok(trace[i])
      {
        if i > 0 {
          assert trace[i] == rest[i - 1];
        } else {
          assert trace[0] == plan[0];
        }
      }
    }
  }

  lemma {:induction false} AttemptedStopsAtLast(plan: seq<Step>, ok: Step -> bool)
    ensures |Attempted(plan, ok)| < |plan| ==> !ok(Attempted(plan, ok)[|Attempted(plan, ok)| - 1])
  {
    if plan != [] {
      if ok(plan[0]) {
        var rest := Attempted(plan[1..], ok);
        AttemptedStopsAtLast(plan[1..], ok);
        var trace := [plan[0]] + rest;
        assert Attempted(plan, ok) == trace;
        if |trace| < |plan| {
          assert |rest| < |plan[1..]|;
          assert trace[|trace| - 1] == rest[|rest| - 1];
        }
      } else {
        assert Attempted(plan, ok) == [plan[0]];
      }
    }
  }

  lemma {:induction false} AttemptedAllOk(plan: seq<Step>, ok: Step -> bool)
    ensures AllOk(plan, ok) <==> Attempted(plan, ok) == plan && (plan == [] || ok(plan[|plan| - 1]))
  {
    if plan != [] {
      var rest := Attempted(plan[1..], ok);
      if ok(plan[0]) {
        AttemptedAllOk(plan[1..], ok);
        var trace := [plan[0]] + rest;
        if AllOk(plan, ok) {
          assert AllOk(plan[1..], ok) by {
            forall i | 0 <= i < |plan[1..]|
              ensures ok(plan[1..][i])
            {
              assert plan[1..][i] == plan[i + 1];
            }
          }
          assert trace == plan by {
            assert plan == [plan[0]] + plan[1..];
          }
        }
        if trace == plan && ok(plan[|plan| - 1]) {
          assert rest == plan[1..];
          forall i | 0 <= i < |plan|
            ensures ok(plan[i])
          {
            if i > 0 {
              assert plan[i] == plan[1..][i - 1];
            }
          }
        }
      } else {
        assert !AllOk(plan, ok) by {
          assert !ok(plan[0]);
        }
      }
    }
  }

  /** Nothing after a failing step is attempted. */
  lemma {:induction false} StopsAtFailure(plan: seq<Step>, ok: Step -> bool, i: nat)
    requires i < |plan| && !ok(plan[i])
    ensures |Attempted(plan, ok)| <= i + 1
  {
    if i > 0 && ok(plan[0]) {
      StopsAtFailure(plan[1..], ok, i - 1);
    }
  }
}
