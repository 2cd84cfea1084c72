/** cleanup_deployment.py: find the AWS resources an AgentCore deployment left behind and
    delete them. Listing is a filter over what each service returned. Deleting works step by
    step on an account whose calls may fail: `Account.failing` is the set of calls that raise.
    The account records every call made, in order. */
module Cleanup {
  import opened Text
  import opened Outcomes

  // ---------------------------------------------------------------------------------------
  // list_agentcore_resources

  /** The four kinds of resource the script looks for, in the order it lists them. */
  datatype Kind = EcrRepository | LambdaFunction | IamRole | LogGroup

  /** A resource found by the listing. The script only sets `requires_policy_cleanup` on
      roles. */
  datatype Resource = Resource(kind: Kind, name: string, requiresPolicyCleanup: bool)

  /** The text every name of a kind must contain, besides the pattern. */
  function Marker(kind: Kind): string {
    match kind
    case EcrRepository => "agentcore-runtime"
    case LambdaFunction => "agentcore-runtime"
    case IamRole => "AgentCoreRuntimeRole"
    case LogGroup => "bedrock-agentcore"
  }

  predicate Matches(kind: Kind, name: string, pattern: string) {
    Contains(name, Marker(kind)) && Contains(name, pattern)
  }

  /** The resource record built for a matching name. */
  function Found(kind: Kind, name: string): Resource {
    Resource(kind, name, kind == IamRole)
  }

  /** The matching names of one listing, as records, in listing order. */
  function Matching(kind: Kind, names: seq<string>, pattern: string): seq<Resource>
  {
    if names == [] then []
    else
      var last := names[|names| - 1];
      Matching(kind, names[..|names| - 1], pattern) + (if Matches(kind, last, pattern) then [Found(kind, last)] else [])
  }

  /** Every record kept is of the listing's kind, comes from the listing and matches. */
  lemma {:induction false} MatchingSound(kind: Kind, names: seq<string>, pattern: string)
    ensures forall r :: r in Matching(kind, names, pattern) ==>
      r == Found(kind, r.name) && r.name in names && Matches(kind, r.name, pattern)
  {
    if names != [] {
      var init := names[..|names| - 1];
      MatchingSound(kind, init, pattern);
      forall r | r in Matching(kind, names, pattern)
        ensures r == Found(kind, r.name) && r.name in names && Matches(kind, r.name, pattern)
      {
        if r in Matching(kind, init, pattern) {
          assert r.name in init;
        }
      }
    }
  }

  /** Every matching name is listed. */
  lemma {:induction false} MatchingComplete(kind: Kind, names: seq<string>, pattern: string, name: string)
    requires name in names && Matches(kind, name, pattern)
    ensures Found(kind, name) in Matching(kind, names, pattern)
  {
    var last := names[|names| - 1];
    if name != last {
      assert name in names[..|names| - 1];
      MatchingComplete(kind, names[..|names| - 1], pattern, name);
    }
  }

  /** What one listing contributes: nothing when the list call raised. */
  function MatchingListed(kind: Kind, listing: Listing<string>, pattern: string): seq<Resource> {
    Matching(kind, ItemsOr(listing), pattern)
  }

  /** The result of `list_agentcore_resources`: repositories, then functions, then roles, then
      log groups. No region gives an empty list. */
  function Listed(region: Option<string>, pattern: string, repos: Listing<string>, functions: Listing<string>,
                  roles: Listing<string>, logGroups: Listing<string>): seq<Resource>
  {
    if !IsSet(region) then []
    else MatchingListed(EcrRepository, repos, pattern) + MatchingListed(LambdaFunction, functions, pattern)
         + MatchingListed(IamRole, roles, pattern) + MatchingListed(LogGroup, logGroups, pattern)
  }

  /** One `try` block of `list_agentcore_resources`: the records of the matching names are
      appended. A list call that raises appends nothing. */
  method CollectMatching(kind: Kind, listing: Listing<string>, pattern: string, resources: seq<Resource>)
    returns (r: seq<Resource>)
    ensures r == resources + MatchingListed(kind, listing, pattern)
  {
    if listing.ListingFailed? {
      return resources;
    }
    r := CollectNames(kind, listing.items, pattern, resources);
  }

  /** The loop of one `try` block: each listed name that matches is appended, in order. */
  method CollectNames(kind: Kind, names: seq<string>, pattern: string, resources: seq<Resource>)
    returns (r: seq<Resource>)
    ensures r == resources + Matching(kind, names, pattern)
  {
    r := resources;
    var i := 0;
    while i < |names|
      invariant 0 <= i <= |names|
      invariant r == resources + Matching(kind, names[..i], pattern)
    {
      MatchingPrefixStep(kind, names, i, pattern);
      if Matches(kind, names[i], pattern) {
        r := r + [Found(kind, names[i])];
      }
      i := i + 1;
    }
    assert names[..i] == names;
  }

  /** Extending the prefix by one name adds that name's record when it matches. */
  lemma MatchingPrefixStep(kind: Kind, names: seq<string>, i: nat, pattern: string)
    requires i < |names|
    ensures Matching(kind, names[..i + 1], pattern) ==
      Matching(kind, names[..i], pattern) + (if Matches(kind, names[i], pattern) then [Found(kind, names[i])] else [])
  {
    assert names[..i + 1][..i] == names[..i];
  }

  /** `list_agentcore_resources`, given what each service's list call returned. */
  method ListAgentcoreResources(region: Option<string>, pattern: string, repos: Listing<string>,
                                functions: Listing<string>, roles: Listing<string>, logGroups: Listing<string>)
    returns (resources: seq<Resource>)
    ensures resources == Listed(region, pattern, repos, functions, roles, logGroups)
  {
    if !IsSet(region) {
      return [];
    }
    resources := CollectMatching(EcrRepository, repos, pattern, []);
    assert resources == MatchingListed(EcrRepository, repos, pattern);
    resources := CollectMatching(LambdaFunction, functions, pattern, resources);
    resources := CollectMatching(IamRole, roles, pattern, resources);
    resources := CollectMatching(LogGroup, logGroups, pattern, resources);
  }

  /** Position of a kind in the listing order. */
  function Rank(kind: Kind): nat {
    match kind
    case EcrRepository => 0
    case LambdaFunction => 1
    case IamRole => 2
    case LogGroup => 3
  }

  /** The list call that finds resources of a kind. */
  function ListingOf(k: Kind, repos: Listing<string>, functions: Listing<string>, roles: Listing<string>,
                     logGroups: Listing<string>): Listing<string>
  {
    match k
    case EcrRepository => repos
    case LambdaFunction => functions
    case IamRole => roles
    case LogGroup => logGroups
  }

  /** A resource is listed iff a region is set, its kind's list call returned its name and
      the name contains the kind's marker and the pattern. Only roles need policy cleanup.
      A failing list call hides only its own kind. The kinds come in the fixed order. */
  lemma ListedSpec(region: Option<string>, pattern: string, repos: Listing<string>, functions: Listing<string>,
                   roles: Listing<string>, logGroups: Listing<string>)
    ensures var rs := Listed(region, pattern, repos, functions, roles, logGroups);
      && (forall k: Kind, name: string ::
            Found(k, name) in rs <==>
            IsSet(region) && name in ItemsOr(ListingOf(k, repos, functions, roles, logGroups)) && Matches(k, name, pattern))
      && (forall r :: r in rs ==> r == Found(r.kind, r.name))
      && (forall i, j :: 0 <= i < j < |rs| ==> Rank(rs[i].kind) <= Rank(rs[j].kind))
  {
    var rs := Listed(region, pattern, repos, functions, roles, logGroups);
    forall k: Kind, name: string
      ensures Found(k, name) in rs <==>
        IsSet(region) && name in ItemsOr(ListingOf(k, repos, functions, roles, logGroups)) && Matches(k, name, pattern)
    {
      ListedMember(region, pattern, repos, functions, roles, logGroups, k, name);
    }
    ListedShape(region, pattern, repos, functions, roles, logGroups);
  }

  /** Membership of one record in the listing. */
  lemma ListedMember(region: Option<string>, pattern: string, repos: Listing<string>, functions: Listing<string>,
                     roles: Listing<string>, logGroups: Listing<string>, k: Kind, name: string)
    ensures Found(k, name) in Listed(region, pattern, repos, functions, roles, logGroups) <==>
      IsSet(region) && name in ItemsOr(ListingOf(k, repos, functions, roles, logGroups)) && Matches(k, name, pattern)
  {
    if IsSet(region) {
      var names := ItemsOr(ListingOf(k, repos, functions, roles, logGroups));
      FoundInOwnBlock(region, pattern, repos, functions, roles, logGroups, k, name);
      MatchingSound(k, names, pattern);
      if name in names && Matches(k, name, pattern) {
        MatchingComplete(k, names, pattern, name);
      }
    }
  }

  /** A record of one kind can only come from that kind's block of the listing. */
  lemma FoundInOwnBlock(region: Option<string>, pattern: string, repos: Listing<string>, functions: Listing<string>,
                        roles: Listing<string>, logGroups: Listing<string>, k: Kind, name: string)
    requires IsSet(region)
    ensures Found(k, name) in Listed(region, pattern, repos, functions, roles, logGroups) <==>
      Found(k, name) in MatchingListed(k, ListingOf(k, repos, functions, roles, logGroups), pattern)
  {
    var a := MatchingListed(EcrRepository, repos, pattern);
    var b := MatchingListed(LambdaFunction, functions, pattern);
    var c := MatchingListed(IamRole, roles, pattern);
    var d := MatchingListed(LogGroup, logGroups, pattern);
    assert Listed(region, pattern, repos, functions, roles, logGroups) == a + b + c + d;
    if k != EcrRepository { OtherKindAbsent(EcrRepository, ItemsOr(repos), pattern, k, name); }
    if k != LambdaFunction { OtherKindAbsent(LambdaFunction, ItemsOr(functions), pattern, k, name); }
    if k != IamRole { OtherKindAbsent(IamRole, ItemsOr(roles), pattern, k, name); }
    if k != LogGroup { OtherKindAbsent(LogGroup, ItemsOr(logGroups), pattern, k, name); }
  }

  lemma OtherKindAbsent(kind: Kind, names: seq<string>, pattern: string, k: Kind, name: string)
    requires k != kind
    ensures Found(k, name) !in Matching(kind, names, pattern)
  {
    MatchingSound(kind, names, pattern);
  }

  /** Every listed record is as built by `Found`, and the kinds come in rank order. */
  lemma ListedShape(region: Option<string>, pattern: string, repos: Listing<string>, functions: Listing<string>,
                    roles: Listing<string>, logGroups: Listing<string>)
    ensures var rs := Listed(region, pattern, repos, functions, roles, logGroups);
      && (forall r :: r in rs ==> r == Found(r.kind, r.name))
      && (forall i, j :: 0 <= i < j < |rs| ==> Rank(rs[i].kind) <= Rank(rs[j].kind))
  {
    var rs := Listed(region, pattern, repos, functions, roles, logGroups);
    if IsSet(region) {
      var a := MatchingListed(EcrRepository, repos, pattern);
      var b := MatchingListed(LambdaFunction, functions, pattern);
      var c := MatchingListed(IamRole, roles, pattern);
      var d := MatchingListed(LogGroup, logGroups, pattern);
      assert rs == a + b + c + d;
      MatchingSound(EcrRepository, ItemsOr(repos), pattern);
      MatchingSound(LambdaFunction, ItemsOr(functions), pattern);
      MatchingSound(IamRole, ItemsOr(roles), pattern);
      MatchingSound(LogGroup, ItemsOr(logGroups), pattern);
      forall i, j | 0 <= i < j < |rs|
        ensures Rank(rs[i].kind) <= Rank(rs[j].kind)
      {
        KindBlocks(a, b, c, d, i);
        KindBlocks(a, b, c, d, j);
      }
    }
  }

  /** Which block of the listing an index falls in. */
  lemma KindBlocks(a: seq<Resource>, b: seq<Resource>, c: seq<Resource>, d: seq<Resource>, i: int)
    requires 0 <= i < |a + b + c + d|
    requires forall r :: r in a ==> r.kind == EcrRepository
    requires forall r :: r in b ==> r.kind == LambdaFunction
    requires forall r :: r in c ==> r.kind == IamRole
    requires forall r :: r in d ==> r.kind == LogGroup
    ensures i < |a| ==> (a + b + c + d)[i].kind == EcrRepository
    ensures |a| <= i < |a| + |b| ==> (a + b + c + d)[i].kind == LambdaFunction
    ensures |a| + |b| <= i < |a| + |b| + |c| ==> (a + b + c + d)[i].kind == IamRole
    ensures |a| + |b| + |c| <= i ==> (a + b + c + d)[i].kind == LogGroup
  {
    var s := a + b + c + d;
    if i < |a| {
      assert s[i] == a[i];
    } else if i < |a| + |b| {
      assert s[i] == b[i - |a|];
    } else if i < |a| + |b| + |c| {
      assert s[i] == c[i - |a| - |b|];
    } else {
      assert s[i] == d[i - |a| - |b| - |c|];
    }
  }

  // ---------------------------------------------------------------------------------------
  // The account the cleanup works on

  /** Managed policies are detached, inline policies are deleted. */
  datatype PolicyKind = Managed | Inline

  /** The calls the cleanup makes. */
  datatype Call =
    | ListAttached(role: string)
    | Detach(role: string, arn: string)
    | ListInline(role: string)
    | DeleteInline(role: string, policy: string)
    | Delete(kind: Kind, name: string)

  /** What the cleanup can see and change in the account: the managed policies attached to
      each role, each role's inline policies, and every call made so far (failed ones
      included). */
  datatype Aws = Aws(attached: map<string, seq<string>>, inlinePolicies: map<string, seq<string>>, calls: seq<Call>)

  function Policies(st: Aws, pk: PolicyKind, role: string): seq<string> {
    var m := if pk == Managed then st.attached else st.inlinePolicies;
    if role in m then m[role] else []
  }

  function SetPolicies(st: Aws, pk: PolicyKind, role: string, list: seq<string>): Aws {
    if pk == Managed then st.(attached := st.attached[role := list])
    else st.(inlinePolicies := st.inlinePolicies[role := list])
  }

  /** The call that removes one policy from a role. */
  function RemoveCall(pk: PolicyKind, role: string, name: string): Call {
    if pk == Managed then Detach(role, name) else DeleteInline(role, name)
  }

  function RemoveCalls(pk: PolicyKind, role: string, names: seq<string>): (cs: seq<Call>)
    ensures |cs| == |names|
  {
    if names == [] then [] else [RemoveCall(pk, role, names[0])] + RemoveCalls(pk, role, names[1..])
  }

  /** `list` without any copy of `x`. */
  function Without(list: seq<string>, x: string): (r: seq<string>)
    ensures forall y :: y in r <==> y in list && y != x
  {
    if list == [] then []
    else (if list[0] == x then [] else [list[0]]) + Without(list[1..], x)
  }

  /** Removing the named policies of a role one by one. A call that raises ends the loop, and
      the second component says whether all the calls succeeded. */
  function RemoveEach(st: Aws, pk: PolicyKind, role: string, names: seq<string>, failing: set<Call>): (Aws, bool)
    decreases |names|
  {
    if names == [] then (st, true)
    else
      var c := RemoveCall(pk, role, names[0]);
      var logged := st.(calls := st.calls + [c]);
      if c in failing then (logged, false)
      else RemoveEach(SetPolicies(logged, pk, role, Without(Policies(st, pk, role), names[0])), pk, role, names[1..], failing)
  }

  /** The calls `cleanup_iam_role_policies` plans for a role with the given policies. */
  function PolicyPlan(role: string, managed: seq<string>, inline: seq<string>): seq<Call> {
    [ListAttached(role)] + RemoveCalls(Managed, role, managed) + [ListInline(role)] + RemoveCalls(Inline, role, inline)
  }

  /** The calls made from a plan: all of them up to and including the first one that raises. */
  function Attempted(plan: seq<Call>, failing: set<Call>): seq<Call> {
    if plan == [] then []
    else if plan[0] in failing then [plan[0]]
    else [plan[0]] + Attempted(plan[1..], failing)
  }

  /** `cleanup_iam_role_policies` on a state: list and detach the managed policies, then list
      and delete the inline ones. The first call that raises ends it; the exception does not
      propagate. */
  function CleanupPolicies(st: Aws, role: string, failing: set<Call>): Aws {
    var listed := st.(calls := st.calls + [ListAttached(role)]);
    if ListAttached(role) in failing then listed
    else
      var (detached, ok) := RemoveEach(listed, Managed, role, Policies(st, Managed, role), failing);
      if !ok then detached
      else
        var listed2 := detached.(calls := detached.calls + [ListInline(role)]);
        if ListInline(role) in failing then listed2
        else RemoveEach(listed2, Inline, role, Policies(detached, Inline, role), failing).0
  }

  /** One turn of the loop in `cleanup_resources`: in a dry run nothing is called and the
      resource counts as a success. Otherwise a role first loses its policies, then the
      resource is deleted, and the resource counts as a success iff the delete call did not
      raise. */
  function CleanupStep(st: Aws, r: Resource, dryRun: bool, failing: set<Call>): (Aws, bool) {
    if dryRun then (st, true)
    else
      var cleaned := if r.requiresPolicyCleanup then CleanupPolicies(st, r.name, failing) else st;
      var c := Delete(r.kind, r.name);
      (cleaned.(calls := cleaned.calls + [c]), c !in failing)
  }

  /** The final state and the two counters `cleanup_resources` prints. */
  datatype Tally = Tally(st: Aws, successes: nat, errors: nat)

  function CleanupAll(st: Aws, rs: seq<Resource>, dryRun: bool, failing: set<Call>): Tally
    decreases |rs|
  {
    if rs == [] then Tally(st, 0, 0)
    else
      var (next, ok) := CleanupStep(st, rs[0], dryRun, failing);
      var t := CleanupAll(next, rs[1..], dryRun, failing);
      Tally(t.st, t.successes + (if ok then 1 else 0), t.errors + (if ok then 0 else 1))
  }

  /** The AWS account, with the calls that raise fixed in advance. */
  class Account {
    var attached: map<string, seq<string>>
    var inlinePolicies: map<string, seq<string>>
    var calls: seq<Call>
    const failing: set<Call>

    constructor (attached: map<string, seq<string>>, inlinePolicies: map<string, seq<string>>, failing: set<Call>)
      ensures Snapshot() == Aws(attached, inlinePolicies, []) && this.failing == failing
    {
      this.attached := attached;
      this.inlinePolicies := inlinePolicies;
      this.calls := [];
      this.failing := failing;
    }

    function Snapshot(): Aws
      reads this
    {
      Aws(attached, inlinePolicies, calls)
    }

    /** The policy loops of `cleanup_iam_role_policies`: remove each named policy in turn and
        stop at the first call that raises. */
    method RemovePolicies(pk: PolicyKind, role: string, names: seq<string>) returns (ok: bool)
      modifies this
      ensures (Snapshot(), ok) == RemoveEach(old(Snapshot()), pk, role, names, failing)
    {
      var i := 0;
      while i < |names|
        invariant 0 <= i <= |names|
        invariant RemoveEach(Snapshot(), pk, role, names[i..], failing) == RemoveEach(old(Snapshot()), pk, role, names, failing)
      {
        assert names[i..][1..] == names[i + 1..];
        var c := RemoveCall(pk, role, names[i]);
        var remaining := Without(Policies(Snapshot(), pk, role), names[i]);
        calls := calls + [c];
        if c in failing {
          return false;
        }
        if pk == Managed {
          attached := attached[role := remaining];
        } else {
          inlinePolicies := inlinePolicies[role := remaining];
        }
        i := i + 1;
      }
      return true;
    }

    /** `cleanup_iam_role_policies` */
    method CleanupIamRolePolicies(role: string)
      modifies this
      ensures Snapshot() == CleanupPolicies(old(Snapshot()), role, failing)
    {
      var managed := Policies(Snapshot(), Managed, role);
      calls := calls + [ListAttached(role)];
      if ListAttached(role) in failing {
        return;
      }
      var ok := RemovePolicies(Managed, role, managed);
      if !ok {
        return;
      }
      var inline := Policies(Snapshot(), Inline, role);
      calls := calls + [ListInline(role)];
      if ListInline(role) in failing {
        return;
      }
      ok := RemovePolicies(Inline, role, inline);
    }

    /** `cleanup_resources`, returning the printed counters with the result. */
    method CleanupResources(resources: seq<Resource>, dryRun: bool) returns (ok: bool, successes: nat, errors: nat)
      modifies this
      ensures Tally(Snapshot(), successes, errors) == CleanupAll(old(Snapshot()), resources, dryRun, failing)
      ensures ok <==> errors == 0
    {
      if resources == [] {
        return true, 0, 0;
      }
      successes, errors := 0, 0;
      var i := 0;
      while i < |resources|
        invariant 0 <= i <= |resources|
        invariant var t := CleanupAll(Snapshot(), resources[i..], dryRun, failing);
          Tally(t.st, t.successes + successes, t.errors + errors) == CleanupAll(old(Snapshot()), resources, dryRun, failing)
      {
        assert resources[i..][1..] == resources[i + 1..];
        var r := resources[i];
        if dryRun {
          successes := successes + 1;
        } else {
          if r.requiresPolicyCleanup {
            CleanupIamRolePolicies(r.name);
          }
          var c := Delete(r.kind, r.name);
          calls := calls + [c];
          if c in failing {
            errors := errors + 1;
          } else {
            successes := successes + 1;
          }
        }
        i := i + 1;
      }
      ok := errors == 0;
    }
  }

  // ---------------------------------------------------------------------------------------
  // Properties of the policy cleanup

  /** The calls made while removing policies are the planned ones up to the first that
      raises, and the loop reports success iff none of them raised. */
  lemma RemoveEachCalls(st: Aws, pk: PolicyKind, role: string, names: seq<string>, failing: set<Call>)
    ensures RemoveEach(st, pk, role, names, failing).0.calls == st.calls + Attempted(RemoveCalls(pk, role, names), failing)
    ensures RemoveEach(st, pk, role, names, failing).1 <==> forall c :: c in RemoveCalls(pk, role, names) ==> c !in failing
  {
    RemoveEachLog(st, pk, role, names, failing);
    RemoveEachOk(st, pk, role, names, failing);
  }

  lemma {:induction false} RemoveEachLog(st: Aws, pk: PolicyKind, role: string, names: seq<string>, failing: set<Call>)
    ensures RemoveEach(st, pk, role, names, failing).0.calls == st.calls + Attempted(RemoveCalls(pk, role, names), failing)
    decreases |names|
  {
    if names != [] {
      var c := RemoveCall(pk, role, names[0]);
      var rest := RemoveCalls(pk, role, names[1..]);
      RemoveCallsCons(pk, role, names);
      AttemptedCons(c, rest, failing);
      if c !in failing {
        var next := RemoveEachStep(st, pk, role, names, failing);
        RemoveEachLog(next, pk, role, names[1..], failing);
        assert st.calls + [c] + Attempted(rest, failing) == st.calls + ([c] + Attempted(rest, failing));
      }
    }
  }

  lemma RemoveCallsCons(pk: PolicyKind, role: string, names: seq<string>)
    requires names != []
    ensures RemoveCalls(pk, role, names) == [RemoveCall(pk, role, names[0])] + RemoveCalls(pk, role, names[1..])
  {
  }

  /** One successful removal: the call is logged and the loop goes on from the new state. */
  lemma RemoveEachStep(st: Aws, pk: PolicyKind, role: string, names: seq<string>, failing: set<Call>)
    returns (next: Aws)
    requires names != [] && RemoveCall(pk, role, names[0]) !in failing
    ensures next.calls == st.calls + [RemoveCall(pk, role, names[0])]
    ensures RemoveEach(st, pk, role, names, failing) == RemoveEach(next, pk, role, names[1..], failing)
  {
    var c := RemoveCall(pk, role, names[0]);
    next := SetPolicies(st.(calls := st.calls + [c]), pk, role, Without(Policies(st, pk, role), names[0]));
  }

  lemma {:induction false} RemoveEachOk(st: Aws, pk: PolicyKind, role: string, names: seq<string>, failing: set<Call>)
    ensures RemoveEach(st, pk, role, names, failing).1 <==> forall c :: c in RemoveCalls(pk, role, names) ==> c !in failing
    decreases |names|
  {
    if names != [] {
      var c := RemoveCall(pk, role, names[0]);
      var rest := RemoveCalls(pk, role, names[1..]);
      assert RemoveCalls(pk, role, names) == [c] + rest;
      if c !in failing {
        var next := SetPolicies(st.(calls := st.calls + [c]), pk, role, Without(Policies(st, pk, role), names[0]));
        RemoveEachOk(next, pk, role, names[1..], failing);
      }
    }
  }

  /** The first call of a plan is always made; the rest only when it does not raise. */
  lemma AttemptedCons(c: Call, rest: seq<Call>, failing: set<Call>)
    ensures Attempted([c] + rest, failing) == if c in failing then [c] else [c] + Attempted(rest, failing)
  {
    assert ([c] + rest)[1..] == rest;
  }

  /** Removing policies of one kind from one role leaves every other list as it was. */
  lemma {:induction false} RemoveEachFrame(st: Aws, pk: PolicyKind, role: string, names: seq<string>, failing: set<Call>)
    ensures var st' := RemoveEach(st, pk, role, names, failing).0;
      (forall x :: x != role ==> Policies(st', pk, x) == Policies(st, pk, x))
      && (forall other: PolicyKind, x :: other != pk ==> Policies(st', other, x) == Policies(st, other, x))
    decreases |names|
  {
    if names != [] {
      var c := RemoveCall(pk, role, names[0]);
      var logged := st.(calls := st.calls + [c]);
      if c !in failing {
        var next := SetPolicies(logged, pk, role, Without(Policies(st, pk, role), names[0]));
        assert RemoveEach(st, pk, role, names, failing) == RemoveEach(next, pk, role, names[1..], failing);
        assert forall x :: x != role ==> Policies(next, pk, x) == Policies(st, pk, x);
        assert forall other: PolicyKind, x :: other != pk ==> Policies(next, other, x) == Policies(st, other, x);
        RemoveEachFrame(next, pk, role, names[1..], failing);
      }
    }
  }

  /** When no call raises, the named policies are gone from the role and the others stay. */
  lemma {:induction false} RemoveEachRemoves(st: Aws, pk: PolicyKind, role: string, names: seq<string>, failing: set<Call>)
    ensures var (st', ok) := RemoveEach(st, pk, role, names, failing);
      ok ==> forall y :: y in Policies(st', pk, role) <==> y in Policies(st, pk, role) && y !in names
    decreases |names|
  {
    if names != [] {
      var c := RemoveCall(pk, role, names[0]);
      var logged := st.(calls := st.calls + [c]);
      if c !in failing {
        var next := SetPolicies(logged, pk, role, Without(Policies(st, pk, role), names[0]));
        RemoveEachRemoves(next, pk, role, names[1..], failing);
        assert forall y :: y in names <==> y == names[0] || y in names[1..];
      }
    }
  }

  /** Calls that all succeed are all made, and the plan goes on after them. */
  lemma {:induction false} AttemptedConcat(a: seq<Call>, b: seq<Call>, failing: set<Call>)
    requires forall c :: c in a ==> c !in failing
    ensures Attempted(a + b, failing) == a + Attempted(b, failing)
  {
    if a != [] {
      assert a[0] in a;
      assert (a + b)[0] == a[0];
      assert (a + b)[1..] == a[1..] + b;
      AttemptedConcat(a[1..], b, failing);
      assert [a[0]] + (a[1..] + Attempted(b, failing)) == a + Attempted(b, failing);
    } else {
      assert a + b == b;
    }
  }

  /** A call that raises ends the plan: nothing after it is made. */
  lemma {:induction false} AttemptedStops(a: seq<Call>, b: seq<Call>, failing: set<Call>)
    requires exists c :: c in a && c in failing
    ensures Attempted(a + b, failing) == Attempted(a, failing)
  {
    assert (a + b)[0] == a[0];
    if a[0] !in failing {
      assert (a + b)[1..] == a[1..] + b;
      AttemptedStops(a[1..], b, failing);
    }
  }

  /** `cleanup_iam_role_policies` makes the calls of its plan, up to and including the first
      that raises, and none after it. The first call lists the attached policies. */
  lemma CleanupPoliciesCalls(st: Aws, role: string, failing: set<Call>)
    ensures var plan := PolicyPlan(role, Policies(st, Managed, role), Policies(st, Inline, role));
      CleanupPolicies(st, role, failing).calls == st.calls + Attempted(plan, failing)
      && Attempted(plan, failing)[0] == ListAttached(role)
  {
    var managed := Policies(st, Managed, role);
    var inline := Policies(st, Inline, role);
    PlanStartsWithListing(role, managed, inline, failing);
    if ListAttached(role) !in failing {
      var listed := st.(calls := st.calls + [ListAttached(role)]);
      assert Policies(listed, Managed, role) == managed && Policies(listed, Inline, role) == inline;
      CleanupAfterListing(listed, role, failing);
    }
  }

  /** The policy plan opens with the listing of the attached policies. */
  lemma PlanStartsWithListing(role: string, managed: seq<string>, inline: seq<string>, failing: set<Call>)
    ensures var plan := PolicyPlan(role, managed, inline);
      var tail := RemoveCalls(Managed, role, managed) + ([ListInline(role)] + RemoveCalls(Inline, role, inline));
      && Attempted(plan, failing)[0] == ListAttached(role)
      && Attempted(plan, failing) ==
         (if ListAttached(role) in failing then [ListAttached(role)] else [ListAttached(role)] + Attempted(tail, failing))
  {
    var plan := PolicyPlan(role, managed, inline);
    var tail := RemoveCalls(Managed, role, managed) + ([ListInline(role)] + RemoveCalls(Inline, role, inline));
    assert plan == [ListAttached(role)] + tail;
    assert plan[1..] == tail;
  }

  /** The part of `cleanup_iam_role_policies` after the attached policies were listed. */
  lemma CleanupAfterListing(listed: Aws, role: string, failing: set<Call>)
    ensures var managed := Policies(listed, Managed, role);
      var inline := Policies(listed, Inline, role);
      var (detached, ok) := RemoveEach(listed, Managed, role, managed, failing);
      var rest := if !ok then detached
        else
          var listed2 := detached.(calls := detached.calls + [ListInline(role)]);
          if ListInline(role) in failing then listed2
          else RemoveEach(listed2, Inline, role, Policies(detached, Inline, role), failing).0;
      rest.calls == listed.calls
        + Attempted(RemoveCalls(Managed, role, managed) + ([ListInline(role)] + RemoveCalls(Inline, role, inline)), failing)
  {
    var managed := Policies(listed, Managed, role);
    var inline := Policies(listed, Inline, role);
    var detachCalls := RemoveCalls(Managed, role, managed);
    var deleteCalls := RemoveCalls(Inline, role, inline);
    RemoveEachCalls(listed, Managed, role, managed, failing);
    RemoveEachFrame(listed, Managed, role, managed, failing);
    var (detached, ok) := RemoveEach(listed, Managed, role, managed, failing);
    if !ok {
      AttemptedStops(detachCalls, [ListInline(role)] + deleteCalls, failing);
    } else {
      AttemptedConcat(detachCalls, [], failing);
      assert detachCalls + [] == detachCalls;
      assert Policies(detached, Inline, role) == inline;
      InlinePhaseCalls(detached, role, failing, listed.calls, detachCalls);
    }
  }

  /** After the managed policies are all detached, the inline phase makes its listing call and
      the deletions up to the first that raises. */
  lemma InlinePhaseCalls(detached: Aws, role: string, failing: set<Call>, prefix: seq<Call>, detachCalls: seq<Call>)
    requires forall c :: c in detachCalls ==> c !in failing
    requires detached.calls == prefix + detachCalls
    ensures var inline := Policies(detached, Inline, role);
      var listed2 := detached.(calls := detached.calls + [ListInline(role)]);
      var rest := if ListInline(role) in failing then listed2 else RemoveEach(listed2, Inline, role, inline, failing).0;
      rest.calls == prefix + Attempted(detachCalls + ([ListInline(role)] + RemoveCalls(Inline, role, inline)), failing)
  {
    var inline := Policies(detached, Inline, role);
    var deleteCalls := RemoveCalls(Inline, role, inline);
    var listed2 := detached.(calls := detached.calls + [ListInline(role)]);
    var tail := Attempted([ListInline(role)] + deleteCalls, failing);
    assert Attempted(detachCalls + ([ListInline(role)] + deleteCalls), failing) == detachCalls + tail by {
      AttemptedConcat(detachCalls, [ListInline(role)] + deleteCalls, failing);
    }
    AttemptedCons(ListInline(role), deleteCalls, failing);
    if ListInline(role) in failing {
      assert listed2.calls == prefix + (detachCalls + [ListInline(role)]);
    } else {
      RemoveEachLog(listed2, Inline, role, inline, failing);
      assert listed2.calls + Attempted(deleteCalls, failing)
        == prefix + (detachCalls + ([ListInline(role)] + Attempted(deleteCalls, failing)));
    }
  }

  /** `cleanup_iam_role_policies` never touches the policies of another role. */
  lemma CleanupPoliciesFrame(st: Aws, role: string, failing: set<Call>)
    ensures var st' := CleanupPolicies(st, role, failing);
      forall pk: PolicyKind, x :: x != role ==> Policies(st', pk, x) == Policies(st, pk, x)
  {
    var listed := st.(calls := st.calls + [ListAttached(role)]);
    RemoveEachFrame(listed, Managed, role, Policies(st, Managed, role), failing);
    var (detached, ok) := RemoveEach(listed, Managed, role, Policies(st, Managed, role), failing);
    var listed2 := detached.(calls := detached.calls + [ListInline(role)]);
    RemoveEachFrame(listed2, Inline, role, Policies(detached, Inline, role), failing);
    var st' := CleanupPolicies(st, role, failing);
    forall pk: PolicyKind, x | x != role
      ensures Policies(st', pk, x) == Policies(st, pk, x)
    {
      assert Policies(listed, pk, x) == Policies(st, pk, x);
      assert Policies(detached, pk, x) == Policies(listed, pk, x);
      assert Policies(listed2, pk, x) == Policies(detached, pk, x);
    }
  }

  /** When none of the planned calls raises, the role ends with no managed and no inline
      policy. */
  lemma CleanupPoliciesClears(st: Aws, role: string, failing: set<Call>)
    requires forall c :: c in PolicyPlan(role, Policies(st, Managed, role), Policies(st, Inline, role)) ==> c !in failing
    ensures Policies(CleanupPolicies(st, role, failing), Managed, role) == []
    ensures Policies(CleanupPolicies(st, role, failing), Inline, role) == []
  {
    var managed := Policies(st, Managed, role);
    var inline := Policies(st, Inline, role);
    var plan := PolicyPlan(role, managed, inline);
    var listed := st.(calls := st.calls + [ListAttached(role)]);
    assert ListAttached(role) in plan && ListInline(role) in plan;
    assert forall c :: c in RemoveCalls(Managed, role, managed) ==> c in plan;
    assert forall c :: c in RemoveCalls(Inline, role, inline) ==> c in plan;
    RemoveEachCalls(listed, Managed, role, managed, failing);
    RemoveEachFrame(listed, Managed, role, managed, failing);
    RemoveEachRemoves(listed, Managed, role, managed, failing);
    var (detached, ok) := RemoveEach(listed, Managed, role, managed, failing);
    assert Policies(detached, Inline, role) == inline;
    NothingLeft(Policies(detached, Managed, role));
    var listed2 := detached.(calls := detached.calls + [ListInline(role)]);
    RemoveEachCalls(listed2, Inline, role, inline, failing);
    RemoveEachFrame(listed2, Inline, role, inline, failing);
    RemoveEachRemoves(listed2, Inline, role, inline, failing);
    var st' := RemoveEach(listed2, Inline, role, inline, failing).0;
    NothingLeft(Policies(st', Inline, role));
  }

  lemma NothingLeft(rest: seq<string>)
    requires forall y :: y !in rest
    ensures rest == []
  {
    forall y
      ensures multiset(rest)[y] == 0
    {
      assert y !in rest;
    }
    assert multiset(rest) == multiset{};
  }

  // ---------------------------------------------------------------------------------------
  // Properties of cleanup_resources

  /** Every resource counts once, as a success or as an error. */
  lemma {:induction false} CountsAddUp(st: Aws, rs: seq<Resource>, dryRun: bool, failing: set<Call>)
    ensures var t := CleanupAll(st, rs, dryRun, failing); t.successes + t.errors == |rs|
    decreases |rs|
  {
    if rs != [] {
      CountsAddUp(CleanupStep(st, rs[0], dryRun, failing).0, rs[1..], dryRun, failing);
    }
  }

  /** A dry run makes no call, changes nothing and counts every resource as a success. */
  lemma {:induction false} DryRunTouchesNothing(st: Aws, rs: seq<Resource>, failing: set<Call>)
    ensures CleanupAll(st, rs, true, failing) == Tally(st, |rs|, 0)
    decreases |rs|
  {
    if rs != [] {
      DryRunTouchesNothing(st, rs[1..], failing);
    }
  }

  /** The delete calls among a sequence of calls. */
  function Deletes(calls: seq<Call>): seq<Call> {
    if calls == [] then []
    else (if calls[0].Delete? then [calls[0]] else []) + Deletes(calls[1..])
  }

  lemma {:induction false} DeletesConcat(a: seq<Call>, b: seq<Call>)
    ensures Deletes(a + b) == Deletes(a) + Deletes(b)
  {
    if a != [] {
      assert (a + b)[0] == a[0];
      assert (a + b)[1..] == a[1..] + b;
      DeletesConcat(a[1..], b);
      var head := if a[0].Delete? then [a[0]] else [];
      assert Deletes(a + b) == head + Deletes(a[1..] + b);
      assert Deletes(a) == head + Deletes(a[1..]);
    } else {
      assert a + b == b;
    }
  }

  /** The delete call planned for each resource, in list order. */
  function DeleteCalls(rs: seq<Resource>): seq<Call> {
    if rs == [] then [] else [Delete(rs[0].kind, rs[0].name)] + DeleteCalls(rs[1..])
  }

  lemma {:induction false} NoDeletesInPolicyCalls(plan: seq<Call>, failing: set<Call>)
    requires forall c :: c in plan ==> !c.Delete?
    ensures Deletes(Attempted(plan, failing)) == []
  {
    if plan != [] {
      NoDeletesInPolicyCalls(plan[1..], failing);
      if plan[0] !in failing {
        DeletesConcat([plan[0]], Attempted(plan[1..], failing));
      }
    }
  }

  lemma RemoveCallsNoDelete(pk: PolicyKind, role: string, names: seq<string>)
    ensures forall c :: c in RemoveCalls(pk, role, names) ==> !c.Delete?
  {
  }

  /** Outside a dry run, one turn first cleans a role's policies and then deletes the
      resource. The policy calls come before the delete and are never delete calls. */
  lemma CleanupStepCalls(st: Aws, r: Resource, failing: set<Call>)
    ensures var (st', _) := CleanupStep(st, r, false, failing);
      var plan := PolicyPlan(r.name, Policies(st, Managed, r.name), Policies(st, Inline, r.name));
      st'.calls == st.calls + (if r.requiresPolicyCleanup then Attempted(plan, failing) else []) + [Delete(r.kind, r.name)]
      && Deletes(st'.calls) == Deletes(st.calls) + [Delete(r.kind, r.name)]
  {
    var plan := PolicyPlan(r.name, Policies(st, Managed, r.name), Policies(st, Inline, r.name));
    CleanupPoliciesCalls(st, r.name, failing);
    RemoveCallsNoDelete(Managed, r.name, Policies(st, Managed, r.name));
    RemoveCallsNoDelete(Inline, r.name, Policies(st, Inline, r.name));
    NoDeletesInPolicyCalls(plan, failing);
    var mid := if r.requiresPolicyCleanup then Attempted(plan, failing) else [];
    DeletesConcat(st.calls, mid);
    DeletesConcat(st.calls + mid, [Delete(r.kind, r.name)]);
    assert Deletes([Delete(r.kind, r.name)]) == [Delete(r.kind, r.name)];
  }

  /** Outside a dry run, every resource gets its delete call, in list order, whatever failed
      before it: the run only appends to the calls, and the delete calls it appends are
      exactly one per resource. */
  lemma {:induction false} EveryResourceDeleted(st: Aws, rs: seq<Resource>, failing: set<Call>)
    ensures var t := CleanupAll(st, rs, false, failing);
      st.calls <= t.st.calls && Deletes(t.st.calls) == Deletes(st.calls) + DeleteCalls(rs)
    decreases |rs|
  {
    if rs != [] {
      var (next, _) := CleanupStep(st, rs[0], false, failing);
      CleanupStepCalls(st, rs[0], failing);
      EveryResourceDeleted(next, rs[1..], failing);
      assert DeleteCalls(rs) == [Delete(rs[0].kind, rs[0].name)] + DeleteCalls(rs[1..]);
    }
  }

  /** Outside a dry run the number of errors is the number of delete calls that raised, so
      `cleanup_resources` returns True iff no delete call raised. A failing policy call
      never counts as an error. */
  lemma {:induction false} ErrorsAreFailedDeletes(st: Aws, rs: seq<Resource>, failing: set<Call>)
    ensures CleanupAll(st, rs, false, failing).errors == 0 <==>
      forall i :: 0 <= i < |rs| ==> Delete(rs[i].kind, rs[i].name) !in failing
    decreases |rs|
  {
    if rs != [] {
      var (next, _) := CleanupStep(st, rs[0], false, failing);
      ErrorsAreFailedDeletes(next, rs[1..], failing);
      assert forall i :: 1 <= i < |rs| ==> rs[i] == rs[1..][i - 1];
    }
  }

  /** `cleanup_iam_role_policies` on a role without policies leaves it without policies. */
  lemma CleanupPoliciesNone(st: Aws, role: string, failing: set<Call>)
    requires Policies(st, Managed, role) == [] && Policies(st, Inline, role) == []
    ensures Policies(CleanupPolicies(st, role, failing), Managed, role) == []
    ensures Policies(CleanupPolicies(st, role, failing), Inline, role) == []
  {
    var listed := st.(calls := st.calls + [ListAttached(role)]);
    assert RemoveEach(listed, Managed, role, [], failing) == (listed, true);
    var listed2 := listed.(calls := listed.calls + [ListInline(role)]);
    assert RemoveEach(listed2, Inline, role, [], failing) == (listed2, true);
  }

  /** A role whose policy lists are empty keeps them empty through later turns of the loop. */
  lemma {:induction false} EmptyStaysEmpty(st: Aws, rs: seq<Resource>, dryRun: bool, failing: set<Call>, role: string)
    requires Policies(st, Managed, role) == [] && Policies(st, Inline, role) == []
    ensures var st' := CleanupAll(st, rs, dryRun, failing).st;
      Policies(st', Managed, role) == [] && Policies(st', Inline, role) == []
    decreases |rs|
  {
    if rs != [] {
      var (next, _) := CleanupStep(st, rs[0], dryRun, failing);
      if !dryRun && rs[0].requiresPolicyCleanup {
        if rs[0].name == role {
          CleanupPoliciesNone(st, role, failing);
        } else {
          CleanupPoliciesFrame(st, rs[0].name, failing);
        }
      }
      EmptyStaysEmpty(next, rs[1..], dryRun, failing, role);
    }
  }

  /** When no call raises, an executed cleanup reports success and leaves every listed role
      without policies. */
  lemma {:induction false} CleanRunClearsRoles(st: Aws, rs: seq<Resource>)
    ensures var t := CleanupAll(st, rs, false, {});
      t.errors == 0
      && forall i :: 0 <= i < |rs| && rs[i].requiresPolicyCleanup ==>
           Policies(t.st, Managed, rs[i].name) == [] && Policies(t.st, Inline, rs[i].name) == []
    decreases |rs|
  {
    ErrorsAreFailedDeletes(st, rs, {});
    if rs != [] {
      var (next, _) := CleanupStep(st, rs[0], false, {});
      CleanRunClearsRoles(next, rs[1..]);
      if rs[0].requiresPolicyCleanup {
        CleanupPoliciesClears(st, rs[0].name, {});
        EmptyStaysEmpty(next, rs[1..], false, {}, rs[0].name);
      }
      assert forall i :: 1 <= i < |rs| ==> rs[i] == rs[1..][i - 1];
    }
  }
}
