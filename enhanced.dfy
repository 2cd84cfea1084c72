/** The enhanced deployment script: a `DeploymentManager` whose agent name and mode flags
    the interactive prompts may change while it deploys. The run is OAuth (with a y/n prompt
    for an existing provider), Cognito (never failing), configure under the current name,
    then a check for existing artifacts, the choice prompt, and one launch. */
module Enhanced {
  import opened Text
  import opened Outcomes
  import opened Conflicts
  import opened Agentcore
  import opened Naming

  /** The manager's mutable settings. */
  datatype Settings = Settings(agentName: string, autoUpdate: bool, forceRecreate: bool)

  /** What the three existence checks find: the ECR repository, the IAM role and the Lambda
      function. */
  datatype Lookups = Lookups(ecr: Lookup, iam: Lookup, lambda: Lookup)

  const EcrLabel := "ECR repository: "
  const IamLabel := "IAM role: "
  const LambdaLabel := "Lambda function: "

  /** The artifact lines `check_existing_deployment()` collects, in check order. */
  function Artifacts(agentName: string, found: Lookups): seq<string> {
    (if found.ecr.Found? then [EcrLabel + RuntimeResourceName(agentName)] else [])
    + (if found.iam.Found? then [IamLabel + RoleName(agentName)] else [])
    + (if found.lambda.Found? then [LambdaLabel + RuntimeResourceName(agentName)] else [])
  }

  /** One line per artifact found; a lookup error is only a warning and counts as absent; the
      repository and function names are normalised, the role name is not. */
  lemma ArtifactsSpec(agentName: string, found: Lookups, m: string)
    ensures var a := Artifacts(agentName, found);
      && (EcrLabel + RuntimeResourceName(agentName) in a <==> found.ecr.Found?)
      && (IamLabel + RoleName(agentName) in a <==> found.iam.Found?)
      && (LambdaLabel + RuntimeResourceName(agentName) in a <==> found.lambda.Found?)
      && (a == [] <==> !found.ecr.Found? && !found.iam.Found? && !found.lambda.Found?)
    ensures Artifacts(agentName, found.(ecr := LookupError(m))) == Artifacts(agentName, found.(ecr := NotFound))
    ensures Artifacts(agentName, found.(iam := LookupError(m))) == Artifacts(agentName, found.(iam := NotFound))
    ensures Artifacts(agentName, found.(lambda := LookupError(m))) == Artifacts(agentName, found.(lambda := NotFound))
  {
    var e := EcrLabel + RuntimeResourceName(agentName);
    var i := IamLabel + RoleName(agentName);
    var l := LambdaLabel + RuntimeResourceName(agentName);
    assert e[0] == 'E' && i[0] == 'I' && l[0] == 'L';
    assert e != i && e != l && i != l;
  }

  /** Two spellings of the default name report the same repository and function but
      different roles. */
  lemma ArtifactsSpellings()
    ensures var all := Lookups(Found, Found, Found);
      var a := Artifacts("sbom_security_agent", all);
      var b := Artifacts("sbom-security-agent", all);
      a[0] == b[0] && a[2] == b[2] && a[1] != b[1]
  {
    SpellingsShareRuntimeNotRole();
    var all := Lookups(Found, Found, Found);
    var a := Artifacts("sbom_security_agent", all);
    var b := Artifacts("sbom-security-agent", all);
    assert a == [EcrLabel + RuntimeResourceName("sbom_security_agent"), IamLabel + RoleName("sbom_security_agent"),
                 LambdaLabel + RuntimeResourceName("sbom_security_agent")];
    assert b == [EcrLabel + RuntimeResourceName("sbom-security-agent"), IamLabel + RoleName("sbom-security-agent"),
                 LambdaLabel + RuntimeResourceName("sbom-security-agent")];
    assert a[1][|IamLabel|..] == RoleName("sbom_security_agent");
    assert b[1][|IamLabel|..] == RoleName("sbom-security-agent");
  }

  /** The outcome of the choice loop of `handle_existing_artifacts`. */
  datatype Choice = UpdateChosen | RecreateChosen | CancelChosen | Renamed(name: string) | InputClosed

  /** The `while True` choice loop over the stripped answers from `pos` on: "1", "2", "3"
      decide; "4" reads a name and decides when it is not blank, otherwise re-prompts; any
      other answer re-prompts; running out of input raises. */
  function ChoiceLoop(answers: seq<string>, pos: nat): Choice
    decreases |answers| - pos
  {
    if pos >= |answers| then InputClosed
    else
      var c := Strip(answers[pos]);
      if c == "1" then UpdateChosen
      else if c == "2" then RecreateChosen
      else if c == "3" then CancelChosen
      else if c == "4" then
        if pos + 1 >= |answers| then InputClosed
        else if Strip(answers[pos + 1]) != "" then Renamed(Strip(answers[pos + 1]))
        else ChoiceLoop(answers, pos + 2)
      else ChoiceLoop(answers, pos + 1)
  }

  /** An answer that is not one of the four choices. */
  predicate Invalid(answer: string) {
    Strip(answer) !in ["1", "2", "3", "4"]
  }

  /** A run of invalid answers is skipped: the loop decides as if it started after them. */
  lemma {:induction false} ChoiceSkipsInvalid(answers: seq<string>, pos: nat, k: nat)
    requires pos <= k <= |answers|
    requires forall j :: pos <= j < k ==> Invalid(answers[j])
    ensures ChoiceLoop(answers, pos) == ChoiceLoop(answers, k)
    decreases k - pos
  {
    if pos < k {
      InvalidSkipped(answers, pos);
      ChoiceSkipsInvalid(answers, pos + 1, k);
    }
  }

  lemma InvalidSkipped(answers: seq<string>, pos: nat)
    requires pos < |answers| && Invalid(answers[pos])
    ensures ChoiceLoop(answers, pos) == ChoiceLoop(answers, pos + 1)
  {
    var c := Strip(answers[pos]);
    assert c != "1" && c != "2" && c != "3" && c != "4" by {
      assert c !in ["1", "2", "3", "4"];
    }
  }

  /** A "4" followed by a blank name is refused and the choice is asked again. */
  lemma BlankNameReprompts(answers: seq<string>, pos: nat)
    requires pos + 1 < |answers| && Strip(answers[pos]) == "4" && Strip(answers[pos + 1]) == ""
    ensures ChoiceLoop(answers, pos) == ChoiceLoop(answers, pos + 2)
  {
  }

  /** A chosen new name is a non-blank, stripped answer that follows a "4". */
  lemma {:induction false} RenamedIsStrippedAnswer(answers: seq<string>, pos: nat)
    ensures ChoiceLoop(answers, pos).Renamed? ==>
      exists j :: pos < j < |answers| && Strip(answers[j - 1]) == "4"
        && ChoiceLoop(answers, pos).name == Strip(answers[j]) && Strip(answers[j]) != ""
    decreases |answers| - pos
  {
    if pos < |answers| {
      var c := Strip(answers[pos]);
      if c == "4" && pos + 1 < |answers| && Strip(answers[pos + 1]) == "" {
        RenamedIsStrippedAnswer(answers, pos + 2);
      } else if c !in ["1", "2", "3", "4"] {
        RenamedIsStrippedAnswer(answers, pos + 1);
      } else if c == "4" && pos + 1 < |answers| {
        assert Strip(answers[pos + 1 - 1]) == "4";
      }
    }
  }

  /** What `handle_existing_artifacts` does: go on with (possibly changed) settings, return
      False when the user cancels, or raise when input runs out. */
  datatype Handled = Proceed(settings: Settings) | Declined | InputRaised

  function Handle(s: Settings, artifacts: seq<string>, answers: seq<string>, pos: nat): Handled {
    if artifacts == [] || s.forceRecreate || s.autoUpdate then Proceed(s)
    else
      match ChoiceLoop(answers, pos)
      case UpdateChosen => Proceed(s.(autoUpdate := true))
      case RecreateChosen => Proceed(s.(forceRecreate := true))
      case CancelChosen => Declined
      case Renamed(name) => Proceed(s.(agentName := name))
      case InputClosed => InputRaised
  }

  /** With nothing found, or in either mode, the settings are kept and nothing is asked;
      interactively, going on changes exactly one setting: the chosen mode flag, or the name
      to a non-blank one. Answer 1 turns on auto-update, 2 force-recreate, 3 declines, 4
      followed by a non-blank answer renames, 4 followed by a blank name asks again, and
      running out of input raises; declining
      and raising happen only when the user is asked. */
  lemma HandleSpec(s: Settings, artifacts: seq<string>, answers: seq<string>, pos: nat)
    ensures artifacts == [] || s.autoUpdate || s.forceRecreate ==> Handle(s, artifacts, answers, pos) == Proceed(s)
    ensures var h := Handle(s, artifacts, answers, pos);
      h.Proceed? && h.settings != s ==>
        (h.settings == s.(autoUpdate := true) || h.settings == s.(forceRecreate := true)
         || (h.settings == s.(agentName := h.settings.agentName) && h.settings.agentName != ""))
    ensures artifacts != [] && !s.autoUpdate && !s.forceRecreate && pos < |answers| ==>
      && (Strip(answers[pos]) == "1" ==> Handle(s, artifacts, answers, pos) == Proceed(s.(autoUpdate := true)))
      && (Strip(answers[pos]) == "2" ==> Handle(s, artifacts, answers, pos) == Proceed(s.(forceRecreate := true)))
      && (Strip(answers[pos]) == "3" ==> Handle(s, artifacts, answers, pos) == Declined)
      && (Strip(answers[pos]) == "4" && pos + 1 < |answers| && Strip(answers[pos + 1]) != "" ==>
            Handle(s, artifacts, answers, pos) == Proceed(s.(agentName := Strip(answers[pos + 1]))))
      && (Strip(answers[pos]) == "4" && pos + 1 == |answers| ==> Handle(s, artifacts, answers, pos) == InputRaised)
      && (Strip(answers[pos]) == "4" && pos + 1 < |answers| && Strip(answers[pos + 1]) == "" ==>
            Handle(s, artifacts, answers, pos) == Handle(s, artifacts, answers, pos + 2))
    ensures artifacts != [] && !s.autoUpdate && !s.forceRecreate && pos >= |answers| ==>
      Handle(s, artifacts, answers, pos) == InputRaised
    ensures Handle(s, artifacts, answers, pos).Declined? || Handle(s, artifacts, answers, pos).InputRaised? ==>
      artifacts != [] && !s.autoUpdate && !s.forceRecreate
  {
    if artifacts != [] && !s.autoUpdate && !s.forceRecreate {
      RenamedIsStrippedAnswer(answers, pos);
    }
  }

  /** A failed provider creation counts as set up only when the error says "already
      exists". */
  predicate CreateAccepted(create: Outcome) {
    create.Ok? || ProviderAlreadyExists(create.message)
  }

  /** The decision of `setup_github_oauth_provider()` and the input position after it. An
      existing provider is used in either mode; otherwise the y/n answer decides. Running out
      of input at that prompt raises inside the listing's `try`, so the provider is then
      created. */
  function OAuthDecision(s: Settings, creds: Credentials, providers: Listing<string>, create: Outcome,
                         answers: seq<string>, pos: nat): (bool, nat)
  {
    if !CredentialsPresent(creds) then (false, pos)
    else if providers.Listed? && ProviderName in providers.items then
      if s.autoUpdate || s.forceRecreate then (true, pos)
      else if pos < |answers| then (IsYes(answers[pos]), pos + 1)
      else (CreateAccepted(create), pos)
    else (CreateAccepted(create), pos)
  }

  /** Missing credentials fail; an existing provider is accepted in either mode without a
      prompt; interactively it is accepted exactly on a yes; a raised listing, or input
      running out at the prompt, leaves the decision to the creation. */
  lemma OAuthSpec(s: Settings, creds: Credentials, providers: Listing<string>, create: Outcome,
                  answers: seq<string>, pos: nat)
    ensures !CredentialsPresent(creds) ==> OAuthDecision(s, creds, providers, create, answers, pos) == (false, pos)
    ensures CredentialsPresent(creds) && providers.Listed? && ProviderName in providers.items ==>
      var d := OAuthDecision(s, creds, providers, create, answers, pos);
      && (s.autoUpdate || s.forceRecreate ==> d == (true, pos))
      && (!s.autoUpdate && !s.forceRecreate && pos < |answers| ==>
            d == (Lower(Strip(answers[pos])) in ["y", "yes", "1", "true"], pos + 1))
      && (!s.autoUpdate && !s.forceRecreate && pos >= |answers| ==>
            d == OAuthDecision(s, creds, Listed([]), create, answers, pos))
    ensures OAuthDecision(s, creds, ListingFailed("AccessDenied"), create, answers, pos)
      == OAuthDecision(s, creds, Listed([]), create, answers, pos)
  {
  }

  /** What `deploy_agent` finds: the launch result's truthiness and the settings after the
      choice prompt. */
  datatype Deployed = Deployed(ok: bool, settings: Settings)

  /** `deploy_agent(runtime)`: the artifact check under the current name, the choice prompt
      when something is found, then one launch; a cancel, input running out (whatever its
      message, it is no conflict) or a launch error, conflict or not, all give False. */
  function DeployAgentSpec(s: Settings, found: Lookups, answers: seq<string>, pos: nat, launch: LaunchOutcome): Deployed {
    var artifacts := Artifacts(s.agentName, found);
    var h := if artifacts != [] then Handle(s, artifacts, answers, pos) else Proceed(s);
    if !h.Proceed? then Deployed(false, s)
    else Deployed(LaunchSucceeded(launch), h.settings)
  }

  /** A launch error is a failure whatever its message: the result is the same as for an
      empty message, so the conflict test (`EnhancedConflict`) only changes the advice
      printed. */
  lemma LaunchErrorFails(s: Settings, found: Lookups, answers: seq<string>, pos: nat, message: string)
    ensures !DeployAgentSpec(s, found, answers, pos, LaunchRaised(message)).ok
    ensures DeployAgentSpec(s, found, answers, pos, LaunchRaised(message))
            == DeployAgentSpec(s, found, answers, pos, LaunchRaised(""))
  {
  }

  const Plan := [GithubOAuth, CognitoAuth, ConfigureRuntime, LaunchAgent]

  /** What one `deploy()` leaves behind: the result, the steps attempted, the runtime
      configuration used, and the settings afterwards. */
  datatype Run = Run(ok: bool, trace: seq<Step>, configured: Option<RuntimeConfig>, settings: Settings)

  /** `deploy()` step by step from settings `s`. */
  function DeploySpec(s: Settings, region: Option<string>, w: World, found: Lookups, answers: seq<string>): Run {
    var (oauth, next) := OAuthDecision(s, w.creds, w.providers, w.create, answers, 0);
    if !oauth then Run(false, [GithubOAuth], None, s)
    else
      var configured := Configure(s.agentName, region, SetupCognitoAuth(w.cognito), w.configure);
      if configured.None? then Run(false, [GithubOAuth, CognitoAuth, ConfigureRuntime], None, s)
      else
        var d := DeployAgentSpec(s, found, answers, next, w.launch);
        Run(d.ok, Plan, configured, d.settings)
  }

  /** Whether each step of `deploy()` succeeds from settings `s`. */
  function StepOk(s: Settings, region: Option<string>, w: World, found: Lookups, answers: seq<string>, step: Step): bool {
    var (oauth, next) := OAuthDecision(s, w.creds, w.providers, w.create, answers, 0);
    match step
    case GithubOAuth => oauth
    case ConfigureRuntime => Configure(s.agentName, region, SetupCognitoAuth(w.cognito), w.configure).Some?
    case LaunchAgent => DeployAgentSpec(s, found, answers, next, w.launch).ok
    case _ => true
  }

  /** The run attempts OAuth, Cognito, configure and the deploy step in order, stops at the
      first failure and succeeds exactly when every step does. */
  lemma DeployStopsAtFirstFailure(s: Settings, region: Option<string>, w: World, found: Lookups, answers: seq<string>)
    ensures var r := DeploySpec(s, region, w, found, answers);
      var f := step => StepOk(s, region, w, found, answers, step);
      r.trace == Attempted(Plan, f) && (r.ok <==> AllOk(Plan, f))
  {
    DeployShape(s, region, w, found, answers);
    PlanTrace(s, region, w, found, answers);
    PlanAllOk(s, region, w, found, answers);
  }

  /** The run's trace and truthiness, step by step. */
  lemma DeployShape(s: Settings, region: Option<string>, w: World, found: Lookups, answers: seq<string>)
    ensures var r := DeploySpec(s, region, w, found, answers);
      && r.trace ==
        (if !StepOk(s, region, w, found, answers, GithubOAuth) then [GithubOAuth]
         else if !StepOk(s, region, w, found, answers, ConfigureRuntime) then [GithubOAuth, CognitoAuth, ConfigureRuntime]
         else Plan)
      && (r.ok <==> StepOk(s, region, w, found, answers, GithubOAuth)
                    && StepOk(s, region, w, found, answers, ConfigureRuntime)
                    && StepOk(s, region, w, found, answers, LaunchAgent))
  {
  }

  /** Where the stop-at-first-failure trace of the plan ends; the Cognito step never fails. */
  lemma PlanTrace(s: Settings, region: Option<string>, w: World, found: Lookups, answers: seq<string>)
    ensures var f := step => StepOk(s, region, w, found, answers, step);
      Attempted(Plan, f) ==
        if !f(GithubOAuth) then [GithubOAuth]
        else if !f(ConfigureRuntime) then [GithubOAuth, CognitoAuth, ConfigureRuntime]
        else Plan
  {
    var f := step => StepOk(s, region, w, found, answers, step);
    assert Plan[1..] == [CognitoAuth, ConfigureRuntime, LaunchAgent];
    assert Plan[1..][1..] == [ConfigureRuntime, LaunchAgent];
    assert Plan[1..][1..][1..] == [LaunchAgent];
    assert f(CognitoAuth);
  }

  /** All four steps succeed exactly when OAuth, configure and the deploy step do. */
  lemma PlanAllOk(s: Settings, region: Option<string>, w: World, found: Lookups, answers: seq<string>)
    ensures AllOk(Plan, step => StepOk(s, region, w, found, answers, step)) <==>
      StepOk(s, region, w, found, answers, GithubOAuth) && StepOk(s, region, w, found, answers, ConfigureRuntime)
      && StepOk(s, region, w, found, answers, LaunchAgent)
  {
    var f := step => StepOk(s, region, w, found, answers, step);
    if !AllOk(Plan, f) {
      var i :| 0 <= i < |Plan| && !f(Plan[i]);
    } else {
      assert f(Plan[0]) && f(Plan[2]) && f(Plan[3]);
    }
  }

  /** The name chosen with option 4 never reaches the runtime: the runtime is configured,
      and then launched, under the name the manager started with, while the manager's name
      changes only afterwards. */
  lemma RenameComesTooLate(s: Settings, region: Option<string>, w: World, found: Lookups, answers: seq<string>)
    ensures var r := DeploySpec(s, region, w, found, answers);
      r.configured.Some? ==> r.configured.value.agentName == s.agentName
    ensures var r := DeploySpec(s, region, w, found, answers);
      var next := OAuthDecision(s, w.creds, w.providers, w.create, answers, 0).1;
      r.configured.Some? && Artifacts(s.agentName, found) != [] && !s.autoUpdate && !s.forceRecreate
      && ChoiceLoop(answers, next).Renamed?
      ==> r.settings.agentName == ChoiceLoop(answers, next).name
  {
  }

  class DeploymentManager {
    var agentName: string
    var autoUpdate: bool
    var forceRecreate: bool
    /** The session's region, read once when the manager is built. */
    const region: Option<string>

    constructor(agentName: string, autoUpdate: bool, forceRecreate: bool, region: Option<string>)
      ensures this.agentName == agentName && this.autoUpdate == autoUpdate
      ensures this.forceRecreate == forceRecreate && this.region == region
    {
      this.agentName := agentName;
      this.autoUpdate := autoUpdate;
      this.forceRecreate := forceRecreate;
      this.region := region;
    }

    function Current(): Settings
      reads this
    {
      Settings(agentName, autoUpdate, forceRecreate)
    }

    /** `check_existing_deployment()`: each check in turn appends its line when the resource
        exists. */
    method CheckExistingDeployment(found: Lookups) returns (artifacts: seq<string>)
      ensures artifacts == Artifacts(agentName, found)
    {
      artifacts := [];
      if found.ecr.Found? {
        artifacts := artifacts + [EcrLabel + RuntimeResourceName(agentName)];
      }
      if found.iam.Found? {
        artifacts := artifacts + [IamLabel + RoleName(agentName)];
      }
      if found.lambda.Found? {
        artifacts := artifacts + [LambdaLabel + RuntimeResourceName(agentName)];
      }
    }

    /** `handle_existing_artifacts(artifacts)` reading answers from `pos` on. `ok` is its
        result and `raised` says that input ran out; the settings change as `Handle` says. */
    method HandleExistingArtifacts(artifacts: seq<string>, answers: seq<string>, pos: nat)
      returns (ok: bool, raised: bool)
      modifies this
      ensures var h := Handle(old(Current()), artifacts, answers, pos);
        && ok == h.Proceed? && raised == h.InputRaised?
        && Current() == (if h.Proceed? then h.settings else old(Current()))
    {
      if artifacts == [] || forceRecreate || autoUpdate {
        return true, false;
      }
      var i := pos;
      while true
        invariant ChoiceLoop(answers, i) == ChoiceLoop(answers, pos)
        invariant Current() == old(Current())
        decreases |answers| - i
      {
        if i >= |answers| {
          return false, true;
        }
        var choice := Strip(answers[i]);
        if choice == "1" {
          autoUpdate := true;
          return true, false;
        } else if choice == "2" {
          forceRecreate := true;
          return true, false;
        } else if choice == "3" {
          return false, false;
        } else if choice == "4" {
          if i + 1 >= |answers| {
            return false, true;
          }
          var newName := Strip(answers[i + 1]);
          if newName != "" {
            agentName := newName;
            return true, false;
          }
          i := i + 2;
        } else {
          i := i + 1;
        }
      }
    }

    /** `setup_github_oauth_provider()` with the prompt reading `answers[pos]`. */
    method SetupGithubOauthProvider(creds: Credentials, providers: Listing<string>, create: Outcome,
                                    answers: seq<string>, pos: nat)
      returns (ok: bool, next: nat)
      ensures (ok, next) == OAuthDecision(Current(), creds, providers, create, answers, pos)
    {
      if !CredentialsPresent(creds) {
        return false, pos;
      }
      next := pos;
      var found := ProviderExists(providers);
      if found {
        if autoUpdate || forceRecreate {
          return true, pos;
        }
        if pos < |answers| {
          return IsYes(answers[pos]), pos + 1;
        }
      }
      ok := CreateAccepted(create);
    }

    /** `configure_runtime(cognito_config)` under the current name. */
    method ConfigureRuntime(auth: AuthConfig, configure: Outcome) returns (r: Option<RuntimeConfig>)
      ensures r == Configure(agentName, region, auth, configure)
    {
      if !IsSet(region) {
        return None;
      }
      if configure.Raised? {
        return None;
      }
      r := Some(RuntimeConfig(Entrypoint, RequirementsFile, agentName, region.value, auth.discoveryUrl, [auth.clientId]));
    }

    /** `deploy_agent(runtime)` with the choice prompt reading answers from `pos` on. */
    method DeployAgent(found: Lookups, answers: seq<string>, pos: nat, launch: LaunchOutcome) returns (ok: bool)
      modifies this
      ensures var d := DeployAgentSpec(old(Current()), found, answers, pos, launch);
        ok == d.ok && Current() == d.settings
    {
      var artifacts := CheckExistingDeployment(found);
      if artifacts != [] {
        var proceed, _ := HandleExistingArtifacts(artifacts, answers, pos);
        if !proceed {
          return false;
        }
      }
      match launch
      case Launched(truthy) => ok := truthy;
      case LaunchRaised(_) => ok := false;
    }

    /** `deploy()`: OAuth, Cognito, configure, deploy, returning False at the first failure.
        `configured` is the runtime configuration the launch uses. */
    method Deploy(w: World, found: Lookups, answers: seq<string>)
      returns (ok: bool, trace: seq<Step>, configured: Option<RuntimeConfig>)
      modifies this
      ensures var r := DeploySpec(old(Current()), region, w, found, answers);
        ok == r.ok && trace == r.trace && configured == r.configured && Current() == r.settings
    {
      trace := [GithubOAuth];
      var oauth, next := SetupGithubOauthProvider(w.creds, w.providers, w.create, answers, 0);
      if !oauth {
        return false, trace, None;
      }
      trace := trace + [CognitoAuth];
      var auth := SetupCognitoAuth(w.cognito);
      trace := trace + [Step.ConfigureRuntime];
      configured := ConfigureRuntime(auth, w.configure);
      if configured.None? {
        return false, trace, configured;
      }
      trace := trace + [LaunchAgent];
      ok := DeployAgent(found, answers, next, w.launch);
    }
  }

  /** The region `--region` sets through `AWS_DEFAULT_REGION`, else the session's own. */
  function EffectiveRegion(regionArg: Option<string>, sessionRegion: Option<string>): Option<string> {
    if IsSet(regionArg) then regionArg else sessionRegion
  }

  /** `main()`: refuse both mode flags, otherwise build a manager and deploy; the exit code
      is 0 exactly on success. Building the manager creates the AgentCore control client,
      which raises without a region; `main` catches that and exits 1 before any step.
      `trace` is the steps `deploy()` attempts. */
  method RunMain(autoUpdate: bool, forceRecreate: bool, agentName: string, regionArg: Option<string>,
              sessionRegion: Option<string>, w: World, found: Lookups, answers: seq<string>)
    returns (exitCode: int, trace: seq<Step>)
    ensures exitCode == 0 || exitCode == 1
    ensures var region := EffectiveRegion(regionArg, sessionRegion);
      exitCode == 0 <==>
        FlagsAccepted(autoUpdate, forceRecreate) && IsSet(region)
        && DeploySpec(Settings(agentName, autoUpdate, forceRecreate), region, w, found, answers).ok
    ensures var region := EffectiveRegion(regionArg, sessionRegion);
      trace == if FlagsAccepted(autoUpdate, forceRecreate) && IsSet(region)
               then DeploySpec(Settings(agentName, autoUpdate, forceRecreate), region, w, found, answers).trace
               else []
  {
    if !FlagsAccepted(autoUpdate, forceRecreate) {
      return 1, [];
    }
    var region := EffectiveRegion(regionArg, sessionRegion);
    if !IsSet(region) {
      return 1, [];
    }
    var manager := new DeploymentManager(agentName, autoUpdate, forceRecreate, region);
    var ok, steps, _ := manager.Deploy(w, found, answers);
    exitCode := if ok then 0 else 1;
    trace := steps;
  }
}
