/** How the helper scripts find an agent and its endpoint. They look for the runtime
    repository or function of an agent, scan environment variables, pick the Cognito user
    pool, and prompt for an endpoint until one validates. test_deployment.py picks the
    endpoint it tests the same way. AWS calls are outcome parameters, and the terminal is the
    sequence of lines the user enters. */
module Discovery {
  import opened Text
  import opened Outcomes
  import opened Naming
  import opened Endpoint
  import opened EnvFile

  // ---------------------------------------------------------------------------------------
  // find_agent_info

  /** `find_agent_info`: with a region configured, the ECR repository of the runtime name is
      looked up. The Lambda function of the same name is looked up only when that found
      nothing. A found resource gives the agent id `name.replace('agentcore-runtime-', '')`.
      An empty agent id counts as not found. */
  function FindAgentInfo(agentName: string, region: Option<string>, ecr: Lookup, lambda: Lookup): Option<AgentInfo>
  {
    if !IsSet(region) then None
    else
      var id := AgentIdFromRuntimeName(agentName);
      var fromEcr := if ecr.Found? then id else "";
      var agentId := if fromEcr != "" then fromEcr else if lambda.Found? then id else "";
      if agentId == "" then None
      else Some(AgentInfo(agentId, agentName, EndpointFor(agentId, region.value), None, region.value))
  }

  /** The agent is found iff a region is set, one of the two lookups found the runtime
      resource and the derived id is not empty. The record then carries the derived id, the
      agent name, the region and the endpoint built from the id and the region. */
  lemma FindAgentInfoSpec(agentName: string, region: Option<string>, ecr: Lookup, lambda: Lookup)
    ensures var r := FindAgentInfo(agentName, region, ecr, lambda);
      (r.Some? <==> IsSet(region) && (ecr.Found? || lambda.Found?) && AgentIdFromRuntimeName(agentName) != "")
      && (r.Some? ==>
            r.value.agentId == AgentIdFromRuntimeName(agentName) && r.value.agentName == agentName
            && r.value.region == region.value && r.value.status == None
            && r.value.endpointUrl == EndpointFor(r.value.agentId, region.value))
  {
  }

  /** A repository found in ECR decides the answer: the Lambda outcome no longer matters. */
  lemma EcrFoundIgnoresLambda(agentName: string, region: Option<string>, l1: Lookup, l2: Lookup)
    ensures AgentIdFromRuntimeName(agentName) != "" ==>
      FindAgentInfo(agentName, region, Found, l1) == FindAgentInfo(agentName, region, Found, l2)
  {
  }

  /** An agent found under a normalised, separator-free name round-trips through its endpoint:
      `interactive_mode` reads the same agent id and region back from the URL. */
  lemma FoundEndpointRoundTrip(agentName: string, region: string, ecr: Lookup, lambda: Lookup)
    requires (ecr.Found? || lambda.Found?) && region != ""
    requires NormalizeName(agentName) != "" && !Contains(NormalizeName(agentName), RuntimePrefix)
    requires NoneOf(agentName, Separators) && NoneOf(region, Separators) && Lower(region) == region
    ensures var r := FindAgentInfo(agentName, Some(region), ecr, lambda);
      r.Some? && HasWebScheme(r.value.endpointUrl)
      && ValidateEndpointUrl(r.value.endpointUrl) == Accepted(r.value.endpointUrl)
      && AgentInfoFromEndpoint(r.value.endpointUrl) ==
         Some(AgentInfo(r.value.agentId, "sbom-security-agent", r.value.endpointUrl, Some("Unknown"), region))
  {
    var id := NormalizeName(agentName);
    assert FindAgentInfo(agentName, Some(region), ecr, lambda)
      == Some(AgentInfo(id, agentName, EndpointFor(id, region), None, region)) by {
      AgentIdIsNormalizedName(agentName);
    }
    NormalizedClean(agentName);
    NormalizeLower(agentName);
    EndpointRoundTrip(id, region);
  }

  /** Normalising keeps the separator-free property: only `_` and capitals change. */
  lemma NormalizedClean(name: string)
    requires NoneOf(name, Separators)
    ensures NoneOf(NormalizeName(name), Separators)
  {
    var n := NormalizeName(name);
    forall i | 0 <= i < |n|
      ensures n[i] !in Separators
    {
      assert n[i] == FoldChar(name[i]);
    }
  }

  lemma NormalizeLower(name: string)
    ensures Lower(NormalizeName(name)) == NormalizeName(name)
  {
  }

  // ---------------------------------------------------------------------------------------
  // try_get_endpoint_from_deployment

  /** The environment variables scanned for an endpoint, in order. */
  const EndpointVars: seq<string> := [
    "AGENT_ENDPOINT", "AGENTCORE_ENDPOINT", "BEDROCK_AGENT_ENDPOINT",
    "AGENT_URL", "INVOKE_URL", "ENDPOINT_URL"]

  /** The first of `vars` set to a non-empty value, and that value. */
  function FirstSetVar(env: Env, vars: seq<string>): Option<string>
  {
    if vars == [] then None
    else if IsSet(GetEnv(env, vars[0])) then GetEnv(env, vars[0])
    else FirstSetVar(env, vars[1..])
  }

  /** `FirstSetVar` returns the value of the earliest set variable, and None iff none is set. */
  lemma {:induction false} FirstSetVarSpec(env: Env, vars: seq<string>)
    ensures FirstSetVar(env, vars).None? <==> forall i :: 0 <= i < |vars| ==> !IsSet(GetEnv(env, vars[i]))
    ensures FirstSetVar(env, vars).Some? ==>
      exists i :: 0 <= i < |vars| && GetEnv(env, vars[i]) == FirstSetVar(env, vars)
        && FirstSetVar(env, vars).value != ""
        && forall j :: 0 <= j < i ==> !IsSet(GetEnv(env, vars[j]))
  {
    if vars != [] && !IsSet(GetEnv(env, vars[0])) {
      FirstSetVarSpec(env, vars[1..]);
      if FirstSetVar(env, vars).Some? {
        var i :| 0 <= i < |vars[1..]| && GetEnv(env, vars[1..][i]) == FirstSetVar(env, vars[1..])
          && FirstSetVar(env, vars[1..]).value != ""
          && forall j :: 0 <= j < i ==> !IsSet(GetEnv(env, vars[1..][j]));
        assert GetEnv(env, vars[i + 1]) == FirstSetVar(env, vars);
        assert forall j :: 0 <= j < i + 1 ==> !IsSet(GetEnv(env, vars[j])) by {
          forall j | 0 <= j < i + 1
            ensures !IsSet(GetEnv(env, vars[j]))
          {
            if j > 0 {
              assert vars[j] == vars[1..][j - 1];
            }
          }
        }
      } else {
        forall i | 0 <= i < |vars|
          ensures !IsSet(GetEnv(env, vars[i]))
        {
          if i > 0 {
            assert vars[i] == vars[1..][i - 1];
          }
        }
      }
    } else if vars != [] {
      assert GetEnv(env, vars[0]) == FirstSetVar(env, vars);
    }
  }

  /** `try_get_endpoint_from_deployment`: a `.bedrock_agentcore.yaml` that exists but cannot
      be read raises, and the exception turns into None. Otherwise the loop returns the
      first set variable among the six. */
  method TryGetEndpointFromDeployment(env: Env, configRead: Outcome) returns (r: Option<string>)
    ensures configRead.Raised? ==> r == None
    ensures configRead.Ok? ==> r == FirstSetVar(env, EndpointVars)
  {
    if configRead.Raised? {
      return None;
    }
    var i := 0;
    while i < |EndpointVars|
      invariant 0 <= i <= |EndpointVars|
      invariant FirstSetVar(env, EndpointVars[i..]) == FirstSetVar(env, EndpointVars)
    {
      var value := GetEnv(env, EndpointVars[i]);
      assert EndpointVars[i..][1..] == EndpointVars[i + 1..];
      if IsSet(value) {
        return value;
      }
      i := i + 1;
    }
    return None;
  }

  // ---------------------------------------------------------------------------------------
  // find_cognito_info

  /** A user pool as `list_user_pools` describes it; the name may be missing. */
  datatype Pool = Pool(id: string, name: Option<string>)

  /** `pool.get('Name', '')` */
  function PoolName(p: Pool): string {
    if p.name.Some? then p.name.value else ""
  }

  predicate IsMcpPool(p: Pool) {
    Contains(PoolName(p), "MCPServerPool")
  }

  /** Index of the first MCP pool, or the number of pools when there is none. */
  function FirstMcpPool(pools: seq<Pool>): (k: nat)
    ensures k <= |pools|
    ensures k < |pools| ==> IsMcpPool(pools[k])
    ensures forall j :: 0 <= j < k ==> !IsMcpPool(pools[j])
  {
    if pools == [] then 0
    else if IsMcpPool(pools[0]) then 0
    else 1 + FirstMcpPool(pools[1..])
  }

  /** The OpenID discovery URL of a Cognito user pool. */
  function DiscoveryUrl(region: string, poolId: string): string {
    "https://cognito-idp." + region + ".amazonaws.com/" + poolId + "/.well-known/openid-configuration"
  }

  /** What `find_cognito_info` returns: the first MCP pool with the first client of that pool,
      or None when listing fails, no pool matches or the pool has no client. */
  function CognitoChoice(region: string, pools: Listing<Pool>, clients: Listing<string>): Option<CognitoInfo>
  {
    if pools.ListingFailed? then None
    else
      var k := FirstMcpPool(pools.items);
      if k == |pools.items| || clients.ListingFailed? || clients.items == [] then None
      else
        var id := pools.items[k].id;
        Some(CognitoInfo(id, clients.items[0], DiscoveryUrl(region, id)))
  }

  /** A chosen pool is an MCP pool preceded by none; its first client is taken. */
  lemma CognitoChoiceSpec(region: string, pools: Listing<Pool>, clients: Listing<string>)
    ensures var r := CognitoChoice(region, pools, clients);
      (r.Some? <==> pools.Listed? && (exists k :: 0 <= k < |pools.items| && IsMcpPool(pools.items[k]))
                    && clients.Listed? && clients.items != [])
      && (r.Some? ==>
            exists k :: 0 <= k < |pools.items| && IsMcpPool(pools.items[k])
              && (forall j :: 0 <= j < k ==> !IsMcpPool(pools.items[j]))
              && r.value == CognitoInfo(pools.items[k].id, clients.items[0], DiscoveryUrl(region, pools.items[k].id)))
  {
    if pools.Listed? {
      var k := FirstMcpPool(pools.items);
      if exists k' :: 0 <= k' < |pools.items| && IsMcpPool(pools.items[k']) {
        var k' :| 0 <= k' < |pools.items| && IsMcpPool(pools.items[k']);
        assert k <= k';
      }
    }
  }

  /** `find_cognito_info`: the loop breaks at the first pool whose name contains
      "MCPServerPool"; the clients listing is the outcome of listing that pool's clients. */
  method FindCognitoInfo(region: string, pools: Listing<Pool>, clients: Listing<string>) returns (r: Option<CognitoInfo>)
    ensures r == CognitoChoice(region, pools, clients)
  {
    if pools.ListingFailed? {
      return None;
    }
    var userPools := pools.items;
    var mcpPool: Option<Pool> := None;
    var i := 0;
    while i < |userPools|
      invariant 0 <= i <= |userPools|
      invariant mcpPool == None
      invariant forall j :: 0 <= j < i ==> !IsMcpPool(userPools[j])
    {
      if IsMcpPool(userPools[i]) {
        mcpPool := Some(userPools[i]);
        FirstMcpPoolUnique(userPools, i);
        break;
      }
      i := i + 1;
    }
    if mcpPool.None? {
      FirstMcpPoolUnique(userPools, |userPools|);
      return None;
    }
    assert FirstMcpPool(userPools) == i && mcpPool.value == userPools[i];
    if clients.ListingFailed? || clients.items == [] {
      return None;
    }
    var poolId := mcpPool.value.id;
    r := Some(CognitoInfo(poolId, clients.items[0], DiscoveryUrl(region, poolId)));
  }

  lemma {:induction false} FirstMcpPoolUnique(pools: seq<Pool>, k: nat)
    requires k <= |pools| && (k < |pools| ==> IsMcpPool(pools[k]))
    requires forall j :: 0 <= j < k ==> !IsMcpPool(pools[j])
    ensures FirstMcpPool(pools) == k
    decreases k
  {
    if k > 0 {
      assert !IsMcpPool(pools[0]);
      FirstMcpPoolUnique(pools[1..], k - 1);
    }
  }

  // ---------------------------------------------------------------------------------------
  // Prompting for an endpoint

  /** The entry loop of `get_endpoint_url_from_user`, reading the input lines from `pos` on,
      for a validator `check`. An empty entry is followed by the "help?" answer and loops.
      An entry the validator rejects loops. The first accepted entry is returned validated.
      Running out of input raises EOFError, modelled as None. */
  function EntryLoop(check: string -> Validation, answers: seq<string>, pos: nat): Option<string>
    decreases |answers| - pos
  {
    if pos >= |answers| then None
    else
      var entry := Strip(answers[pos]);
      if entry == [] then EntryLoop(check, answers, pos + 2)
      else if check(entry).Accepted? then Some(check(entry).url)
      else EntryLoop(check, answers, pos + 1)
  }

  /** The loop only returns what the validator accepted for one of the lines it read. */
  lemma {:induction false} EntryLoopAccepted(check: string -> Validation, answers: seq<string>, pos: nat)
    ensures EntryLoop(check, answers, pos).Some? ==>
      exists i :: pos <= i < |answers| && Strip(answers[i]) != []
        && check(Strip(answers[i])) == Accepted(EntryLoop(check, answers, pos).value)
    decreases |answers| - pos
  {
    if pos < |answers| {
      var entry := Strip(answers[pos]);
      if entry == [] {
        EntryLoopAccepted(check, answers, pos + 2);
      } else if check(entry).Rejected? {
        EntryLoopAccepted(check, answers, pos + 1);
      } else {
        assert check(Strip(answers[pos])) == Accepted(EntryLoop(check, answers, pos).value);
      }
    }
  }

  /** Lines that are rejected before an accepted line are skipped: the result is the
      validated form of the first line the validator accepts. */
  lemma {:induction false} EntryLoopSkips(check: string -> Validation, answers: seq<string>, pos: nat, k: nat)
    requires pos <= k < |answers| && Strip(answers[k]) != [] && check(Strip(answers[k])).Accepted?
    requires forall j :: pos <= j < k ==> Strip(answers[j]) != [] && check(Strip(answers[j])).Rejected?
    ensures EntryLoop(check, answers, pos) == Some(check(Strip(answers[k])).url)
    decreases k - pos
  {
    if pos < k {
      EntryLoopSkips(check, answers, pos + 1, k);
    }
  }

  /** The entry loop, as written in both scripts: a `while True` over the input lines from
      `start` on. Each script passes its own `validate_endpoint_url`. */
  method PromptForEndpoint(check: string -> Validation, answers: seq<string>, start: nat) returns (r: Option<string>)
    ensures r == EntryLoop(check, answers, start)
  {
    var pos := start;
    while pos < |answers|
      invariant start <= pos
      invariant EntryLoop(check, answers, pos) == EntryLoop(check, answers, start)
      decreases |answers| - pos
    {
      var entry := Strip(answers[pos]);
      if entry == [] {
        pos := pos + 2;
      } else {
        var v := check(entry);
        if v.Accepted? {
          return Some(v.url);
        }
        pos := pos + 1;
      }
    }
    return None;
  }

  /** test_deployment.py's `get_endpoint_url_from_user`: the "need help?" answer is line 0,
      and the entry loop reads from line 1 on. */
  method AskEndpoint(answers: seq<string>) returns (r: Option<string>)
    ensures r == EntryLoop(ValidateEndpointUrl, answers, 1)
  {
    r := PromptForEndpoint(ValidateEndpointUrl, answers, 1);
  }

  /** The endpoint get_agent_info.py offers before asking: the scanned variables first, then
      the endpoint of the agent `find_agent_info` found. */
  function AutoEndpoint(fromDeployment: Option<string>, agent: Option<AgentInfo>): (r: Option<string>)
    ensures IsSet(fromDeployment) ==> r == fromDeployment
    ensures !IsSet(fromDeployment) && agent.Some? && agent.value.endpointUrl != [] ==> r == Some(agent.value.endpointUrl)
    ensures !IsSet(fromDeployment) && (agent.None? || agent.value.endpointUrl == []) ==> !IsSet(r)
  {
    if IsSet(fromDeployment) then fromDeployment
    else if agent.Some? && agent.value.endpointUrl != [] then Some(agent.value.endpointUrl)
    else None
  }

  /** What get_agent_info.py's prompt returns. A detected endpoint is offered on line 0, and
      only a "yes" with a URL the validator accepts returns it. Otherwise the "need help?"
      answer comes next and then the entry loop. */
  function DetectedOrAsked(detected: Option<string>, answers: seq<string>): Option<string> {
    if IsSet(detected) then
      if |answers| > 0 && IsYes(answers[0]) && ValidateEndpointUrl(detected.value).Accepted? then
        Some(ValidateEndpointUrl(detected.value).url)
      else EntryLoop(ValidateEndpointUrl, answers, 2)
    else EntryLoop(ValidateEndpointUrl, answers, 1)
  }

  /** get_agent_info.py's `get_endpoint_url_from_user`, given what auto-detection found. */
  method AskEndpointWithDetection(detected: Option<string>, answers: seq<string>) returns (r: Option<string>)
    ensures r == DetectedOrAsked(detected, answers)
  {
    var next := 1;
    if IsSet(detected) {
      if |answers| > 0 && IsYes(answers[0]) {
        var v := ValidateEndpointUrl(detected.value);
        if v.Accepted? {
          return Some(v.url);
        }
      }
      next := 2;
    }
    r := PromptForEndpoint(ValidateEndpointUrl, answers, next);
  }

  /** When no variable names an endpoint and `find_agent_info` finds the agent, the endpoint
      of that agent is what the prompt offers, and a "yes" keeps it unchanged. */
  lemma DetectedAgentTaken(agentName: string, region: string, ecr: Lookup, lambda: Lookup, answers: seq<string>)
    requires (ecr.Found? || lambda.Found?) && region != ""
    requires NormalizeName(agentName) != "" && !Contains(NormalizeName(agentName), RuntimePrefix)
    requires NoneOf(agentName, Separators) && NoneOf(region, Separators) && Lower(region) == region
    requires |answers| > 0 && IsYes(answers[0])
    ensures var agent := FindAgentInfo(agentName, Some(region), ecr, lambda);
      agent.Some? && AutoEndpoint(None, agent) == Some(agent.value.endpointUrl)
      && DetectedOrAsked(AutoEndpoint(None, agent), answers) == Some(agent.value.endpointUrl)
  {
    FoundEndpointRoundTrip(agentName, region, ecr, lambda);
  }

  /** Whatever the user and the detection supply, the prompt returns only URLs the validator
      accepted: either the detected one after a "yes", or an entered line. */
  lemma AskedIsValidated(detected: Option<string>, answers: seq<string>)
    ensures var r := DetectedOrAsked(detected, answers);
      r.Some? ==>
        (IsSet(detected) && ValidateEndpointUrl(detected.value) == Accepted(r.value))
        || exists i :: 0 <= i < |answers| && ValidateEndpointUrl(Strip(answers[i])) == Accepted(r.value)
  {
    EntryLoopAccepted(ValidateEndpointUrl, answers, 1);
    EntryLoopAccepted(ValidateEndpointUrl, answers, 2);
  }

  /** Declining the detected endpoint, or offering one the validator rejects, leads to the
      same questions as detecting nothing, one line later. */
  lemma DeclinedDetection(detected: Option<string>, answers: seq<string>)
    requires IsSet(detected) && |answers| > 0
    requires !IsYes(answers[0]) || ValidateEndpointUrl(detected.value).Rejected?
    ensures DetectedOrAsked(detected, answers) == DetectedOrAsked(None, answers[1..])
  {
    OfferNotTaken(detected, answers);
    EntryLoopShift(ValidateEndpointUrl, answers, 2);
    assert DetectedOrAsked(None, answers[1..]) == EntryLoop(ValidateEndpointUrl, answers[1..], 1);
  }

  lemma OfferNotTaken(detected: Option<string>, answers: seq<string>)
    requires IsSet(detected) && |answers| > 0
    requires !IsYes(answers[0]) || ValidateEndpointUrl(detected.value).Rejected?
    ensures DetectedOrAsked(detected, answers) == EntryLoop(ValidateEndpointUrl, answers, 2)
  {
  }

  /** Dropping the first line shifts every position by one. */
  lemma {:induction false} EntryLoopShift(check: string -> Validation, answers: seq<string>, pos: nat)
    requires 0 < pos && 0 < |answers|
    ensures EntryLoop(check, answers, pos) == EntryLoop(check, answers[1..], pos - 1)
    decreases |answers| - pos
  {
    if pos < |answers| {
      assert answers[1..][pos - 1] == answers[pos];
      EntryLoopShift(check, answers, pos + 1);
      EntryLoopShift(check, answers, pos + 2);
    }
  }

  // ---------------------------------------------------------------------------------------
  // Endpoint selection in test_deployment.py's main

  /** The endpoint `main` tests: AGENT_ENDPOINT, else the scan, else the prompt. A found
      value is replaced by its validated form, and a rejected one sends the user to the
      prompt. */
  function SelectedEndpoint(env: Env, configRead: Outcome, answers: seq<string>): Option<string> {
    var found := FoundEndpoint(env, configRead);
    var asked := EntryLoop(ValidateEndpointUrl, answers, 1);
    if !IsSet(found) then asked
    else
      match ValidateEndpointUrl(found.value)
      case Accepted(url) => Some(url)
      case Rejected(_) => asked
  }

  /** The endpoint `main` finds without asking: AGENT_ENDPOINT, else the scan of the
      deployment variables unless reading the configuration raised. */
  function FoundEndpoint(env: Env, configRead: Outcome): Option<string> {
    var fromEnv := GetEnv(env, "AGENT_ENDPOINT");
    if IsSet(fromEnv) then fromEnv
    else if configRead.Raised? then None
    else FirstSetVar(env, EndpointVars)
  }

  /** A found endpoint is the value of some environment variable. */
  lemma FoundEndpointInEnv(env: Env, configRead: Outcome)
    ensures IsSet(FoundEndpoint(env, configRead)) ==>
      exists name :: name in env && env[name] == FoundEndpoint(env, configRead).value
  {
    FirstSetVarSpec(env, EndpointVars);
    if IsSet(GetEnv(env, "AGENT_ENDPOINT")) {
      assert "AGENT_ENDPOINT" in env;
    } else if configRead.Ok? && FirstSetVar(env, EndpointVars).Some? {
      var i :| 0 <= i < |EndpointVars| && GetEnv(env, EndpointVars[i]) == FirstSetVar(env, EndpointVars);
      assert EndpointVars[i] in env;
    }
  }

  /** The endpoint selection of test_deployment.py's `main`. */
  method SelectEndpoint(env: Env, configRead: Outcome, answers: seq<string>) returns (r: Option<string>)
    ensures r == SelectedEndpoint(env, configRead, answers)
  {
    var endpoint := GetEnv(env, "AGENT_ENDPOINT");
    if !IsSet(endpoint) {
      endpoint := TryGetEndpointFromDeployment(env, configRead);
    }
    if !IsSet(endpoint) {
      r := AskEndpoint(answers);
    } else {
      var v := ValidateEndpointUrl(endpoint.value);
      if v.Rejected? {
        r := AskEndpoint(answers);
      } else {
        r := Some(v.url);
      }
    }
  }

  /** Every endpoint `main` goes on to test is the validated form of some input. A valid
      AGENT_ENDPOINT is used in its validated form without asking the user. */
  lemma SelectedIsValidated(env: Env, configRead: Outcome, answers: seq<string>)
    ensures var r := SelectedEndpoint(env, configRead, answers);
      r.Some? ==>
        (exists name :: name in env && ValidateEndpointUrl(env[name]) == Accepted(r.value))
        || exists i :: 0 <= i < |answers| && ValidateEndpointUrl(Strip(answers[i])) == Accepted(r.value)
    ensures IsSet(GetEnv(env, "AGENT_ENDPOINT")) && ValidateEndpointUrl(env["AGENT_ENDPOINT"]).Accepted? ==>
      SelectedEndpoint(env, configRead, answers) == Some(ValidateEndpointUrl(env["AGENT_ENDPOINT"]).url)
  {
    var found := FoundEndpoint(env, configRead);
    EntryLoopAccepted(ValidateEndpointUrl, answers, 1);
    FoundEndpointInEnv(env, configRead);
    if IsSet(found) && ValidateEndpointUrl(found.value).Accepted? {
      var name :| name in env && env[name] == found.value;
      assert ValidateEndpointUrl(env[name]) == Accepted(SelectedEndpoint(env, configRead, answers).value);
    }
  }
}
