# SBOM security agent deployment scripts, modelled in Dafny

This project models the deterministic logic of the SBOM security agent's AWS deployment
scripts. Each AWS or AgentCore call (describe, list, create, delete, `Runtime().configure`,
`launch`, the Cognito helpers) becomes an outcome parameter: found, not found, an error with
its message, or success. The logic around those calls is modelled as the scripts write it,
and its properties are proved.

- **Endpoints** (`Endpoint`): `validate_endpoint_url`. It trims the input, defaults the
  scheme to `https://`, parses it the way `urllib.parse.urlparse` does for these inputs,
  refuses a missing host, and appends `invocations`. Also modelled: the endpoint template
  `https://<id>.bedrock-agentcore.<region>.amazonaws.com/invocations` and the hostname split
  `interactive_mode` uses to read an agent id and region back from a URL. The function is
  textually identical in get_agent_info.py and test_deployment.py, so it is modelled once.
- **Names** (`Naming`): the runtime resource name `agentcore-runtime-` plus the lower-cased
  name with `_` turned into `-`, the un-normalised IAM role name, the
  `%Y%m%d_%H%M%S` timestamp, and the generated names `base_mode_stamp` and `base_stamp`.
- **Discovery** (`Discovery`): `find_agent_info`, the environment-variable scan, the
  Cognito pool choice, the endpoint prompts of both scripts, and the endpoint selection of
  test_deployment.py's `main`. Prompts read from a sequence of input lines; running out of
  lines is Python's `EOFError`.
- **`.env`** (`EnvFile`): the rewrite in `save_agent_info_to_env` (a filter of owned key
  lines, then fresh key lines), and the appends of the two conflict-resolution scripts. The
  file is handled as text split into lines with `readlines` semantics.
- **Cleanup** (`Cleanup`): the pattern filters of `list_agentcore_resources`. Also the class
  `Account`, whose methods are `cleanup_resources` with its counters and dry-run switch and
  the IAM policy loops of `cleanup_iam_role_policies`. They run against an AWS state whose
  failing calls are fixed in advance.
- **Deployment** (`Conflicts`, `Agentcore`, `DeploymentConfig`, `Enhanced`, `SimpleEnhanced`,
  `Working`): the launch-error classifiers, the OAuth provider decision of each script, the
  Cognito placeholder fallback, and the runtime configuration. Also the `DeploymentManager`
  class with its interactive choice loop, the step sequences that stop at the first failing
  step, and the flag check of every `main`.

## Model

| member | source | states |
|---|---|---|
| Naming.NormalizeName | get_agent_info.py:53 | the runtime form of a name has the same length and folds each character: ASCII capitals lowered, `_` turned into `-` |
| Naming.NormalizedIsClean | get_agent_info.py:53 | a normalised name holds no `_` and no ASCII capital |
| Naming.NormalizeIdempotent | get_agent_info.py:75 | normalising twice equals normalising once |
| Naming.RuntimeNamesCollide | enhanced_deployment.py:43 | two agent names share an ECR repository and Lambda function name exactly when they agree up to case and `_`/`-` |
| Naming.SpellingsShareRuntimeNotRole | enhanced_deployment.py:43-69 | "sbom_security_agent" and "sbom-security-agent" share `agentcore-runtime-sbom-security-agent` but have different IAM role names |
| Naming.RoleNameInjective | enhanced_deployment.py:56 | the role name keeps the agent name as given: different names give different roles |
| Naming.AgentIdIsNormalizedName | get_agent_info.py:61 | the agent id derived from a found repository is the normalised agent name when that name does not itself contain the prefix |
| Naming.AgentIdDropsEmbeddedPrefix | get_agent_info.py:61 | `replace` strips every occurrence of the prefix: "agentcore_runtime_x" gets the id "x" |
| Naming.StampShape | working_deployment.py:21 | the stamp is fifteen characters, all digits except `_` at index 8 |
| Naming.StampRoundTrip | working_deployment.py:21 | reading the stamp back gives the clock reading it was made from |
| Naming.StampInjective | test_conflict_resolution.py:11 | different clock readings give different stamps |
| Naming.StampChronological | test_conflict_resolution.py:11 | an earlier reading gives a lexicographically smaller stamp |
| Naming.UniqueNameShape | working_deployment.py:19-22 | a generated name is base, `_`, mode, `_`, the stamp; it reads back to the clock reading and is never the base |
| Naming.UniqueNameInjective | working_deployment.py:19-22 | for a fixed base and mode, names generated at different readings differ |
| Naming.UniqueNameChronological | test_conflict_resolution.py:9-12 | for a fixed base and mode, names sort in the order of their readings |
| Naming.UniqueNameCharset | working_deployment.py:18-22 | a base and mode drawn from letters, digits, `_` and `-` give a name drawn from them too |
| Naming.UniqueNameSingleLine | simple_enhanced_deployment.py:188-190 | such a generated name holds no newline, so it fits on one `.env` line |
| Naming.ChooseAgentNameSpec | working_deployment.py:28-37 | the base is kept exactly when neither flag is given; `--auto-update` picks the "update" name, else `--force-recreate` the "recreate" name |
| Naming.SuggestedNameShape | simple_enhanced_deployment.py:216-219 | the suggested name is base, `_`, stamp: never the base and never equal to a generated name of any mode |
| Naming.NameGenerationExpectations | test_conflict_resolution.py:15-37 | each mode's name is `base_mode_stamp`, the default mode is "auto", and the flags select "update", "recreate" or the base |
| Endpoint.EmptyIsRejected | get_agent_info.py:193-194 | empty input is refused with "URL cannot be empty" |
| Endpoint.BlankIsRejected | get_agent_info.py:196-208 | whitespace-only input has no host and is refused with "Invalid URL format" |
| Endpoint.RejectedIff | get_agent_info.py:191-220 | under the modelled `urlsplit`, a URL is refused exactly when it is empty, has unbalanced brackets in its host part, or has no host; the message says which |
| Endpoint.AcceptedShape | get_agent_info.py:196-217 | an accepted URL is the trimmed input, with `https://` added when it had no web scheme, followed by nothing, "invocations" or "/invocations" |
| Endpoint.AcceptedEndsWithInvocations | test_deployment.py:36-42 | on input without query, fragment or parameters every accepted URL ends in "invocations" |
| Endpoint.FragmentKeptAfterInvocations | get_agent_info.py:211-217 | with a fragment after "/invocations" the URL is accepted as it is and does not end in "invocations" |
| Endpoint.UnchangedIff | get_agent_info.py:211-217 | the URL comes back as trimmed (scheme completed) exactly when its path already ends in "/invocations" |
| Endpoint.NormalizeTwice | get_agent_info.py:211-215 | normalising a normalised URL again changes it exactly when it had no path |
| Endpoint.IdempotentIffPath | get_agent_info.py:191-220 | normalising twice equals normalising once exactly when the input has a path |
| Endpoint.BareHostQuirk | get_agent_info.py:212-215 | a bare host, with or without `https://`, gets "invocations" glued on with no slash |
| Endpoint.BareHostNotIdempotent | get_agent_info.py:246-247 | contrary to the help text, each further pass over a bare host's result glues on another "invocations" |
| Endpoint.HostnameOfPlainHost | get_agent_info.py:396 | a host without `@`, brackets, `:` or `%` is its own hostname, lower-cased |
| Endpoint.EndpointAccepted | get_agent_info.py:99 | the endpoint built for an agent id and region is accepted unchanged by the normaliser |
| Endpoint.EndpointRoundTrip | get_agent_info.py:393-409 | the endpoint of an agent reads back, through the hostname split, as that agent id and region (lower-cased) |
| Discovery.FindAgentInfoSpec | get_agent_info.py:24-135 | an agent is found exactly when a region is set, the repository or the function was found and the derived id is not empty; the record carries id, name, region and built endpoint |
| Discovery.EcrFoundIgnoresLambda | get_agent_info.py:72-85 | once the ECR repository is found, the Lambda outcome does not matter |
| Discovery.FoundEndpointRoundTrip | get_agent_info.py:99 | a found agent's endpoint is accepted unchanged and reads back as the same agent id and region |
| Discovery.FirstSetVarSpec | get_agent_info.py:263-274 | the scan returns the value of the earliest of the six variables that is set and non-empty, and None exactly when none is |
| Discovery.TryGetEndpointFromDeployment | test_deployment.py:214-240 | a failing read of the deployment file gives None; otherwise the result is the variable scan |
| Discovery.FirstMcpPool | get_agent_info.py:152-155 | the index found is the first pool whose name contains "MCPServerPool", or the number of pools |
| Discovery.FirstMcpPoolUnique | get_agent_info.py:152-155 | any index with that property is the one found |
| Discovery.CognitoChoiceSpec | get_agent_info.py:137-188 | a result is the first MCP pool with the first client of that pool and its discovery URL; no pool, no client or a failing call gives None |
| Discovery.FindCognitoInfo | get_agent_info.py:150-184 | the loop with `break` returns that choice |
| Discovery.EntryLoopAccepted | test_deployment.py:87-109 | the entry loop only returns what the validator accepted for one of the lines it read |
| Discovery.EntryLoopSkips | get_agent_info.py:308-330 | empty and rejected lines before an accepted one are skipped, and that one's validated form is returned |
| Discovery.PromptForEndpoint | test_deployment.py:87-109 | the `while True` loop returns what the entry loop specification says |
| Discovery.AskEndpoint | test_deployment.py:76-109 | test_deployment.py's prompt reads the help answer, then runs the entry loop |
| Discovery.AutoEndpoint | get_agent_info.py:286-292 | a set variable wins; otherwise a found agent's endpoint is offered; otherwise nothing |
| Discovery.AskEndpointWithDetection | get_agent_info.py:281-330 | the prompt, given as `detected` the endpoint `AutoEndpoint` picks from the scanned variables and the `find_agent_info` result: a detected endpoint is offered and kept on "yes" when it validates, otherwise the user is asked |
| Discovery.DetectedAgentTaken | get_agent_info.py:286-300 | with no variable set and the agent found, the offered endpoint is the found agent's URL, and a "yes" returns it unchanged |
| Discovery.AskedIsValidated | get_agent_info.py:294-330 | whatever is detected or typed, the prompt returns only URLs the validator accepted |
| Discovery.DeclinedDetection | get_agent_info.py:294-299 | a declined or invalid detected endpoint leads to the same prompt as no detection, one line later |
| Discovery.SelectEndpoint | test_deployment.py:247-268 | `main`'s selection returns what its specification says |
| Discovery.SelectedIsValidated | test_deployment.py:254-268 | an endpoint from the environment is replaced by its validated form; an invalid one falls back to the prompt |
| EnvFile.KeepUnmanaged | get_agent_info.py:344-349 | the filter never lengthens the list |
| EnvFile.KeepUnmanagedMembers | get_agent_info.py:344-349 | a line is kept exactly when it was there and starts with none of the seven owned keys |
| EnvFile.SaveAgentInfoToEnv | get_agent_info.py:336-360 | the rewritten lines are the kept lines, then the four agent lines, then the Cognito lines when given |
| EnvFile.OneLinePerAgentKey | get_agent_info.py:352-355 | each of AGENT_ENDPOINT, AGENT_ID, AGENT_NAME and AWS_REGION is on exactly one line, with the new value |
| EnvFile.CognitoLinesIff | get_agent_info.py:357-360 | each COGNITO_ key is on one line with its new value when Cognito information is given, and on none otherwise |
| EnvFile.SaveIdempotent | get_agent_info.py:344-360 | rerunning the rewrite with the same data gives the same lines |
| EnvFile.UnterminatedLastLineSwallowsEndpoint | get_agent_info.py:339-364 | an old file ending in `FOO=1` without a newline comes back with the endpoint glued to that line and no line starting with `AGENT_ENDPOINT=` |
| EnvFile.SaveTextTerminatedOneLinePerKey | get_agent_info.py:339-364 | with the last old line terminated first, the file reads back with each agent key on exactly one line |
| EnvFile.ConflictNameAddsLine | simple_enhanced_deployment.py:196-202 | the append adds the generated name as the last `AGENT_NAME=` line and keeps the earlier ones |
| EnvFile.SaveDropsConflictName | get_agent_info.py:344-349 | a later rewrite drops that generated `AGENT_NAME=` line |
| EnvFile.DeployedNameLines | working_deployment.py:108-117 | the append reads back as the old lines, the dated comment and one `DEPLOYED_AGENT_NAME=` line |
| EnvFile.SaveKeepsDeployedName | get_agent_info.py:344-349 | `DEPLOYED_AGENT_NAME=` is not an owned key, so a later rewrite keeps that line |
| Cleanup.MatchingSound | cleanup_deployment.py:36-47 | every record kept is of the listing's kind, from the listing, and its name contains the kind's marker and the pattern; only roles are flagged for policy cleanup |
| Cleanup.MatchingComplete | cleanup_deployment.py:38 | every listed name that contains the marker and the pattern is kept |
| Cleanup.CollectMatching | cleanup_deployment.py:32-50 | one `try` block appends the matching records, or nothing when the list call raised |
| Cleanup.CollectNames | cleanup_deployment.py:35-46 | the `for` loop of a `try` block appends, in listing order, a record for exactly the names that contain both the kind's marker and the pattern |
| Cleanup.ListAgentcoreResources | cleanup_deployment.py:16-116 | the collected list is the listing specification |
| Cleanup.ListedSpec | cleanup_deployment.py:16-116 | a resource is listed exactly when a region is set and its kind's call listed a matching name; kinds come in the order repositories, functions, roles, log groups; a failing call hides only its own kind |
| Cleanup.Account.RemovePolicies | cleanup_deployment.py:195-208 | a policy loop removes each named policy in turn and stops at the first call that raises |
| Cleanup.Account.CleanupIamRolePolicies | cleanup_deployment.py:190-210 | the new state is the specification of detaching, then deleting, with any failure swallowed |
| Cleanup.Account.CleanupResources | cleanup_deployment.py:137-187 | the new state and both counters are those of the specification, and the result is true exactly when no error was counted |
| Cleanup.RemoveEachCalls | cleanup_deployment.py:195-208 | the calls made are the planned ones up to and including the first that raises; success means none raised |
| Cleanup.RemoveEachRemoves | cleanup_deployment.py:195-208 | when no call raises, the named policies are gone from the role and its other policies stay |
| Cleanup.CleanupPoliciesCalls | cleanup_deployment.py:193-210 | the policy cleanup makes the calls of its plan, listing first, up to the first that raises and none after |
| Cleanup.CleanupPoliciesFrame | cleanup_deployment.py:190-210 | the policies of other roles are untouched |
| Cleanup.CleanupPoliciesClears | cleanup_deployment.py:193-208 | with no failing call the role ends with no managed and no inline policy |
| Cleanup.CountsAddUp | cleanup_deployment.py:148-179 | successes plus errors is the number of resources |
| Cleanup.DryRunTouchesNothing | cleanup_deployment.py:156-157 | a dry run changes nothing, makes no call and counts every resource a success |
| Cleanup.CleanupStepCalls | cleanup_deployment.py:162-167 | a role's policy calls come before its delete call and are never delete calls |
| Cleanup.EveryResourceDeleted | cleanup_deployment.py:151-179 | outside a dry run every resource gets its delete call, in list order, whatever failed before |
| Cleanup.ErrorsAreFailedDeletes | cleanup_deployment.py:175-187 | there are no errors exactly when no delete call raised; a failed policy cleanup is not an error |
| Cleanup.EmptyStaysEmpty | cleanup_deployment.py:151-179 | a role without policies stays without them through the loop |
| Cleanup.CleanRunClearsRoles | cleanup_deployment.py:137-187 | with no failing call an executed cleanup succeeds and leaves every listed role without policies |
| Conflicts.SimpleConflictIff | simple_enhanced_deployment.py:174-179 | the six-keyword test is the same as "contains exists, conflict or duplicate" |
| Conflicts.EnhancedIsWorking | working_deployment.py:121-135 | the four-keyword test equals the three-keyword test: "resourceconflictexception" contains "conflict" |
| Conflicts.SimpleIsMorePermissive | enhanced_deployment.py:305-308 | every message the enhanced test accepts the simple test accepts; "resource exists" is accepted only by the simple one |
| Conflicts.ConfigProviderTestWider | deployment_config.py:84-94 | "already exists" implies "already exists or duplicate"; "duplicate provider" is accepted only by the wider test |
| Agentcore.ProviderListed | deployment_config.py:49-60 | the provider scan finds something exactly when `github-provider` is among the listed names |
| Agentcore.ProviderExists | deployment_config.py:49-64 | a listing that raises finds nothing |
| Agentcore.SetupCognitoAuth | deployment_config.py:96-131 | the result has a pool id exactly when a pool was created; a created pool's values are passed on; otherwise it is the placeholder |
| Agentcore.Configure | deployment_config.py:142-177 | a configuration is made exactly when a region is set and the configure call returns; it carries the name, region, entrypoint, requirements file, discovery URL and the one allowed client |
| Agentcore.Attempted | deployment_config.py:201-233 | the steps attempted are a prefix of the plan, and a non-empty plan attempts at least one step |
| Agentcore.AttemptedSpec | deployment_config.py:201-233 | all but the last attempted step succeeded; a run that stops early stopped at a failure; the whole plan runs and succeeds exactly when every step succeeds |
| Agentcore.StopsAtFailure | enhanced_deployment.py:337-360 | nothing after a failing step is attempted |
| DeploymentConfig.SetupGithubOauthProvider | deployment_config.py:19-94 | missing credentials fail with no call; without a session region the client cannot be created and the step fails with no call; a listed provider is used with no create call; otherwise the create call is made and decides, "already exists" and "duplicate" counting as success |
| DeploymentConfig.OAuthDecisionSpec | deployment_config.py:24-94 | the step fails exactly when a credential is missing, when there is no region, or when no provider is listed and creation raises an error that is neither "already exists" nor "duplicate"; a failing listing acts like an empty one |
| DeploymentConfig.ConfigureAgentcoreRuntime | deployment_config.py:133-177 | a configuration is made exactly when a region is set and the call returns, always under `AGENT_NAME` |
| DeploymentConfig.ConfiguredRuntime | deployment_config.py:146-161 | the configured name is "sbom_security_agent" and the allowed client is the Cognito client, the placeholder one when Cognito failed |
| DeploymentConfig.DeployAgent | deployment_config.py:179-194 | the step succeeds exactly when the launch returns a truthy result |
| DeploymentConfig.RunMain | deployment_config.py:196-233 | OAuth, configure, launch run in order up to the first failure, and the result is true exactly when all succeed |
| DeploymentConfig.MainSucceedsIff | deployment_config.py:201-233 | a run succeeds exactly when OAuth succeeds, a region is set, the configure call returns and the launch is truthy |
| DeploymentConfig.NoRegionStopsAtOAuth | deployment_config.py:40-44 | without a session region the run stops after the OAuth step and fails, even when the provider is already listed |
| SimpleEnhanced.SetupGithubOauthProvider | simple_enhanced_deployment.py:23-81 | missing credentials fail; no region fails before any call; a listed provider is accepted; otherwise the create call decides, only "already exists" counting as success |
| SimpleEnhanced.OAuthNarrowerThanBase | simple_enhanced_deployment.py:72-81 | every OAuth success here is one in deployment_config.py; "duplicate provider" succeeds there only |
| SimpleEnhanced.ConflictHandlingSpec | simple_enhanced_deployment.py:155-228 | every launch error is a failure; advice is given exactly for a conflict and never names the agent itself; `.env` changes only for a conflict under a flag with a writable file, by appending the generated name of the flag's mode |
| SimpleEnhanced.GeneratedNameSaved | simple_enhanced_deployment.py:183-202 | after such a conflict the generated name is the last `AGENT_NAME=` line of `.env`, after the earlier ones |
| SimpleEnhanced.RunMain | simple_enhanced_deployment.py:234-343 | both flags are refused with no step; otherwise OAuth, Cognito, configure, launch run in order, stopping after a failed OAuth or configure, and the run is truthy exactly when OAuth, configure and the launch succeed; `.env` and the advice change only when the launch ran |
| SimpleEnhanced.MainTrace | simple_enhanced_deployment.py:293-335 | the trace `main()` records is the stop-at-first-failure run of OAuth, Cognito, configure, launch, and the Cognito step never stops it |
| SimpleEnhanced.MainSucceedsIff | simple_enhanced_deployment.py:293-335 | a run succeeds exactly when OAuth succeeds, a region is set, the configure call returns and the launch is truthy: a conflict is never retried |
| Working.PlanTrace | working_deployment.py:42-119 | the steps attempted are OAuth, configure, Cognito, reconfigure, launch up to the first that fails |
| Working.DeployWithConflictResolution | working_deployment.py:25-135 | the method computes the deployment specification, step by step |
| Working.DeployStopsAtFirstFailure | working_deployment.py:42-135 | the run attempts the plan up to the first failing step and succeeds exactly when every step does |
| Working.DeployOutputs | working_deployment.py:99-117 | a runtime is launched exactly when the launch step is reached, under the chosen name, region and client; `.env` gets the deployed name only for a launched run under a generated name with a writable file |
| Working.LaunchedUnderChosenName | working_deployment.py:49-95 | the first configure uses the default name and the reconfigure the chosen one |
| Working.DeploySucceedsIff | working_deployment.py:42-135 | a run succeeds exactly when OAuth, both configure calls and the launch succeed; a conflict message changes only the advice |
| Working.DeployedNameRecorded | working_deployment.py:108-117 | with a mode flag the name differs from the base, and `.env` gains the dated comment and one `DEPLOYED_AGENT_NAME=` line after the old lines |
| Working.RunMain | working_deployment.py:138-207 | both flags are refused and leave `.env` alone; otherwise the run is truthy exactly when all five steps succeed, and `.env` is the one the deployment leaves, with the `DEPLOYED_AGENT_NAME=` block only after a launch under a generated name |
| Enhanced.ArtifactsSpec | enhanced_deployment.py:34-79 | one line per resource found, in check order; a lookup error only warns and counts as absent |
| Enhanced.ArtifactsSpellings | enhanced_deployment.py:41-77 | the two spellings of the default name report the same repository and function but different roles |
| Enhanced.ChoiceSkipsInvalid | enhanced_deployment.py:108-132 | invalid answers are skipped: the loop decides as if it started after them |
| Enhanced.RenamedIsStrippedAnswer | enhanced_deployment.py:121-129 | a new name from option 4 is the stripped, non-empty answer following a "4" |
| Enhanced.BlankNameReprompts | enhanced_deployment.py:123-131 | a "4" whose name answer is blank is refused and the loop decides as if it started after both answers |
| Enhanced.HandleSpec | enhanced_deployment.py:81-132 | with no artifacts or a mode flag nothing is asked and the settings stay; otherwise 1 sets auto-update, 2 force-recreate, 3 declines, 4 followed by a non-blank name renames, 4 followed by a blank name asks again, and running out of input raises |
| Enhanced.OAuthSpec | enhanced_deployment.py:136-204 | missing credentials fail; a listed provider is accepted without asking in either mode and otherwise the answer decides; a failing listing leads to the create call |
| Enhanced.LaunchErrorFails | enhanced_deployment.py:301-326 | a launch error fails whatever its message, conflict or not |
| Enhanced.DeployStopsAtFirstFailure | enhanced_deployment.py:328-372 | OAuth, Cognito, configure and the deploy step run in order up to the first failure; the Cognito step never fails |
| Enhanced.RenameComesTooLate | enhanced_deployment.py:349-357 | the runtime is configured under the starting name even when option 4 later changes the manager's name |
| Enhanced.DeploymentManager.constructor | enhanced_deployment.py:26-32 | the manager starts with the given name, flags and session region |
| Enhanced.DeploymentManager.CheckExistingDeployment | enhanced_deployment.py:34-79 | the artifact lines are those of the specification |
| Enhanced.DeploymentManager.HandleExistingArtifacts | enhanced_deployment.py:81-132 | the result and the new name and flags are those of the choice specification |
| Enhanced.DeploymentManager.SetupGithubOauthProvider | enhanced_deployment.py:136-204 | the result and the input consumed are those of the OAuth specification |
| Enhanced.DeploymentManager.ConfigureRuntime | enhanced_deployment.py:235-270 | the configuration is made under the manager's current name and region |
| Enhanced.DeploymentManager.DeployAgent | enhanced_deployment.py:272-326 | the result and the new settings are those of the deploy specification |
| Enhanced.DeploymentManager.Deploy | enhanced_deployment.py:328-372 | the result, the steps attempted, the runtime configured and the new settings are those of the run specification |
| Enhanced.RunMain | enhanced_deployment.py:375-446 | the exit status is 0 exactly when the flags are accepted, a region is set and the deployment succeeds; without a region, building the manager (enhanced_deployment.py:30-32) raises and no step is attempted |

## Left out

- AWS, AgentCore and Cognito calls are outcome parameters. The unseen `utils` module
  (`setup_cognito_user_pool`) is not part of this model, and neither are the
  `bedrock_agentcore_starter_toolkit` internals.
- find_endpoint.py is not part of this model. It only chains three lookups of
  get_agent_info.py and exits.
- The HTTP smoke test (`test_agent`, `get_jwt_token`) is network I/O.
- Printing, `show_endpoint_help`, `display_resources`, argparse and the cleanup script's
  `main` with its "type yes" confirmation are not modelled. Neither is `KeyboardInterrupt`.
- Files and the environment are parameters. `.env` is text after Python's newline
  translation. The contents of `.bedrock_agentcore.yaml` play no part, only whether reading
  it raised. The environment is a map.
- The clock is a parameter. `datetime.now()` is a `DateTime` with a four-digit year, and
  `str(datetime.now())` in the working script's comment is any text without a newline.
- The `urlparse` parse covers the http(s) inputs these scripts give it. Those inputs are
  the network location up to `/?#`, the path up to `?#` less any `;params`, tab/CR/LF
  removal, and the unbalanced-bracket `ValueError`. Ports and userinfo are handled only
  inside the hostname. `Endpoint.AcceptedEndsWithInvocations` and `Endpoint.IdempotentIffPath`
  assume input without query, fragment or parameters; `Endpoint.FragmentKeptAfterInvocations`
  shows why.
- Two `ValueError` checks of newer `urlsplit` versions are not modelled. Python 3.11.4 and
  later validate a bracketed host as an IPv6 or IPvFuture address. Python 3.8 and later
  reject a non-ASCII network location with a character that NFKC-normalises to one of
  `/?#@:`. The model follows `urlsplit` without these checks. It therefore accepts some
  URLs that a current Python refuses with "Invalid URL: …", such as
  `https://[abc]/invocations`.
- Endpoint.RejectedIff: the refusal conditions it states are those of the modelled
  `urlsplit`. On a Python with the two checks above, a URL can also be refused for a
  bracketed host that is not an IPv6 or IPvFuture address, or for an NFKC-unsafe network
  location.
- `str.lower()` is ASCII-only, so non-ASCII case mappings are not modelled.
- A provider is represented by its name. A provider entry without a `name` key is any name
  other than `github-provider`.
- The `KeyError` a create response without `credentialProviderArn` would raise is not
  modelled. Neither is the exception a configure call raises after the region check, which
  is modelled as the configure outcome.
- The region of a boto3 `Session` is a parameter. `--region` is modelled as
  `Enhanced.EffectiveRegion`, which lets it override the session's region. Creating a boto3
  client without a region raises. The model covers this where the AgentCore control client
  is created: inside the OAuth step's `try`, and in `DeploymentManager.__init__`. Other
  clients are created only after a region check, or inside handlers that treat any error
  alike.

## Findings

| source | as written | input that shows it | evidently intended | confidence | as-written member | corrected member |
|---|---|---|---|---|---|---|
| get_agent_info.py:339-364 | `save_agent_info_to_env` appends the fresh lines to the lines `readlines` returned; an unterminated last line is kept without its newline, so `AGENT_ENDPOINT=` is glued onto it | an existing `.env` holding `FOO=1` with no trailing newline | every key on a line of its own, so that a later read finds `AGENT_ENDPOINT=` | not executed | EnvFile.UnterminatedLastLineSwallowsEndpoint | EnvFile.SaveTextTerminatedOneLinePerKey |
