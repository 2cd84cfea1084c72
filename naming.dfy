/** How the scripts name AWS resources and agents: the runtime-name normalisation used for
    the ECR repository and the Lambda function, the un-normalised IAM role name, and the
    timestamped names generated when a deployment must not reuse an existing name. */
module Naming {
  import opened Text
  import opened Outcomes

  /** The default agent name of the deployment scripts. */
  const DefaultAgentName := "sbom_security_agent"

  /** Prefix of the ECR repository and Lambda function the AgentCore toolkit creates. */
  const RuntimePrefix := "agentcore-runtime-"

  /** Prefix of the execution role the AgentCore toolkit creates. */
  const RolePrefix := "AgentCoreRuntimeRole-"

  /** One character of `name.lower().replace('_', '-')`. */
  function FoldChar(c: char): char {
    if c == '_' then '-' else LowerChar(c)
  }

  /** `name.lower().replace('_', '-')` */
  function NormalizeName(name: string): (r: string)
    ensures |r| == |name| && forall i :: 0 <= i < |name| ==> r[i] == FoldChar(name[i])
  {
    ReplaceChar(Lower(name), '_', '-')
  }

  /** The ECR repository name and the Lambda function name of an agent. */
  function RuntimeResourceName(agentName: string): string {
    RuntimePrefix + NormalizeName(agentName)
  }

  /** The IAM role name of an agent: the agent name is used as given. */
  function RoleName(agentName: string): string {
    RolePrefix + agentName
  }

  /** A normalised name holds no underscore and no ASCII capital. */
  lemma NormalizedIsClean(name: string)
    ensures forall i :: 0 <= i < |NormalizeName(name)| ==>
      NormalizeName(name)[i] != '_' && !('A' <= NormalizeName(name)[i] <= 'Z')
  {
  }

  lemma NormalizeIdempotent(name: string)
    ensures NormalizeName(NormalizeName(name)) == NormalizeName(name)
  {
  }

  /** Two agent names give the same runtime resources exactly when they agree character by
      character up to case and `_`/`-`. */
  lemma RuntimeNamesCollide(a: string, b: string)
    ensures RuntimeResourceName(a) == RuntimeResourceName(b) <==>
      |a| == |b| && forall i :: 0 <= i < |a| ==> FoldChar(a[i]) == FoldChar(b[i])
  {
    if RuntimeResourceName(a) == RuntimeResourceName(b) {
      assert NormalizeName(a) == RuntimeResourceName(a)[|RuntimePrefix|..];
      assert NormalizeName(b) == RuntimeResourceName(b)[|RuntimePrefix|..];
    }
    if |a| == |b| && forall i :: 0 <= i < |a| ==> FoldChar(a[i]) == FoldChar(b[i]) {
      assert NormalizeName(a) == NormalizeName(b);
    }
  }

  /** The underscore and the hyphen spelling of the default agent share one ECR repository
      and one Lambda function, but not one IAM role. */
  lemma SpellingsShareRuntimeNotRole()
    ensures RuntimeResourceName("sbom_security_agent") == RuntimeResourceName("sbom-security-agent")
    ensures RuntimeResourceName("sbom_security_agent") == "agentcore-runtime-sbom-security-agent"
    ensures RoleName("sbom_security_agent") != RoleName("sbom-security-agent")
  {
    DefaultSpellingNormalized("sbom_security_agent");
    DefaultSpellingNormalized("sbom-security-agent");
    DefaultRuntimeLiteral();
    RoleSpellingsDiffer();
  }

  lemma DefaultRuntimeLiteral()
    ensures RuntimePrefix + "sbom-security-agent" == "agentcore-runtime-sbom-security-agent"
  {
  }

  lemma RoleSpellingsDiffer()
    ensures RoleName("sbom_security_agent") != RoleName("sbom-security-agent")
  {
    assert RoleName("sbom_security_agent")[|RolePrefix| + 4] == '_';
  }

  /** Both spellings of the default agent normalise to the hyphen one. */
  lemma DefaultSpellingNormalized(name: string)
    requires name == "sbom_security_agent" || name == "sbom-security-agent"
    ensures NormalizeName(name) == "sbom-security-agent"
  {
    var r := NormalizeName(name);
    forall i | 0 <= i < |name|
      ensures r[i] == "sbom-security-agent"[i]
    {
      assert r[i] == FoldChar(name[i]);
    }
  }

  lemma RoleNameInjective(a: string, b: string)
    requires RoleName(a) == RoleName(b)
    ensures a == b
  {
    assert a == RoleName(a)[|RolePrefix|..];
  }

  /** The agent id `find_agent_info` derives from a found repository or function:
      `name.replace('agentcore-runtime-', '')`. */
  function AgentIdFromRuntimeName(agentName: string): string {
    RemoveAll(RuntimeResourceName(agentName), RuntimePrefix)
  }

  /** When the normalised agent name does not itself contain the prefix, the derived agent
      id is the normalised agent name. */
  lemma AgentIdIsNormalizedName(agentName: string)
    requires !Contains(NormalizeName(agentName), RuntimePrefix)
    ensures AgentIdFromRuntimeName(agentName) == NormalizeName(agentName)
  {
    var s := RuntimeResourceName(agentName);
    assert s[..|RuntimePrefix|] == RuntimePrefix;
    assert s[|RuntimePrefix|..] == NormalizeName(agentName);
    RemoveAllAbsent(NormalizeName(agentName), RuntimePrefix);
  }

  /** `replace` removes every occurrence, so an agent whose name contains the prefix loses it
      twice: "agentcore_runtime_x" is given the agent id "x". */
  lemma AgentIdDropsEmbeddedPrefix()
    ensures AgentIdFromRuntimeName("agentcore_runtime_x") == "x"
  {
    var n := NormalizeName("agentcore_runtime_x");
    assert n == "agentcore-runtime-x";
    var s := RuntimePrefix + n;
    assert s[..|RuntimePrefix|] == RuntimePrefix;
    assert s[|RuntimePrefix|..] == n;
    assert n[..|RuntimePrefix|] == RuntimePrefix;
    assert n[|RuntimePrefix|..] == "x";
  }

  // ---------------------------------------------------------------------------------------
  // Timestamps: datetime.now().strftime("%Y%m%d_%H%M%S")

  /** A wall-clock reading at second resolution, as `datetime.now()` gives it. */
  datatype DateTime = DateTime(year: int, month: int, day: int, hour: int, minute: int, second: int)

  /** A reading `datetime` can hold, restricted to four-digit years. */
  predicate ValidTime(t: DateTime) {
    1000 <= t.year <= 9999 && 1 <= t.month <= 12 && 1 <= t.day <= 31
    && 0 <= t.hour < 24 && 0 <= t.minute < 60 && 0 <= t.second < 60
  }

  function DigitChar(d: int): char
    requires 0 <= d < 10
  {
    ('0' as int + d) as char
  }

  predicate IsDigit(c: char) {
    '0' <= c <= '9'
  }

  function DigitValue(c: char): int
    requires IsDigit(c)
  {
    c as int - '0' as int
  }

  /** `%02d`-style field: two decimal digits. */
  function Pad2(n: int): string
    requires 0 <= n < 100
  {
    [DigitChar(n / 10), DigitChar(n % 10)]
  }

  /** `%Y` for a four-digit year. */
  function Pad4(n: int): string
    requires 1000 <= n <= 9999
  {
    Pad2(n / 100) + Pad2(n % 100)
  }

  /** The `%Y%m%d_%H%M%S` rendering of `t`. */
  function Stamp(t: DateTime): (s: string)
    requires ValidTime(t)
  {
    Pad4(t.year) + (Pad2(t.month) + (Pad2(t.day) + ("_" + (Pad2(t.hour) + (Pad2(t.minute) + Pad2(t.second))))))
  }

  /** The stamp is fifteen characters: digits, with `_` at index 8. */
  lemma StampShape(t: DateTime)
    requires ValidTime(t)
    ensures |Stamp(t)| == 15 && Stamp(t)[8] == '_'
    ensures forall i :: 0 <= i < 15 && i != 8 ==> IsDigit(Stamp(t)[i])
  {
  }

  function Num2(a: char, b: char): int
    requires IsDigit(a) && IsDigit(b)
  {
    DigitValue(a) * 10 + DigitValue(b)
  }

  /** Reads a stamp back: the inverse of `Stamp`. */
  function ParseStamp(s: string): Option<DateTime> {
    if |s| == 15 && s[8] == '_' && forall i :: 0 <= i < 15 && i != 8 ==> IsDigit(s[i]) then
      Some(DateTime(Num2(s[0], s[1]) * 100 + Num2(s[2], s[3]), Num2(s[4], s[5]), Num2(s[6], s[7]),
                    Num2(s[9], s[10]), Num2(s[11], s[12]), Num2(s[13], s[14])))
    else None
  }

  lemma Pad2RoundTrip(n: int)
    requires 0 <= n < 100
    ensures Num2(Pad2(n)[0], Pad2(n)[1]) == n
  {
  }

  lemma Pad4RoundTrip(n: int)
    requires 1000 <= n <= 9999
    ensures Num2(Pad4(n)[0], Pad4(n)[1]) * 100 + Num2(Pad4(n)[2], Pad4(n)[3]) == n
  {
    Pad2RoundTrip(n / 100);
    Pad2RoundTrip(n % 100);
  }

  /** Every stamp reads back to the time it was made from. */
  lemma {:induction false} StampRoundTrip(t: DateTime)
    requires ValidTime(t)
    ensures ParseStamp(Stamp(t)) == Some(t)
  {
    var s := Stamp(t);
    StampShape(t);
    StampFields(t);
    ParseWellFormed(s);
    assert Num2(s[0], s[1]) * 100 + Num2(s[2], s[3]) == t.year by { Pad4RoundTrip(t.year); }
    assert Num2(s[4], s[5]) == t.month by { Pad2RoundTrip(t.month); }
    assert Num2(s[6], s[7]) == t.day by { Pad2RoundTrip(t.day); }
    assert Num2(s[9], s[10]) == t.hour by { Pad2RoundTrip(t.hour); }
    assert Num2(s[11], s[12]) == t.minute by { Pad2RoundTrip(t.minute); }
    assert Num2(s[13], s[14]) == t.second by { Pad2RoundTrip(t.second); }
  }

  /** A well-formed stamp is read field by field. */
  lemma ParseWellFormed(s: string)
    requires |s| == 15 && s[8] == '_' && forall i :: 0 <= i < 15 && i != 8 ==> IsDigit(s[i])
    ensures ParseStamp(s) == Some(DateTime(Num2(s[0], s[1]) * 100 + Num2(s[2], s[3]), Num2(s[4], s[5]),
                                           Num2(s[6], s[7]), Num2(s[9], s[10]), Num2(s[11], s[12]),
                                           Num2(s[13], s[14])))
  {
  }

  /** Where each field sits in the stamp. */
  lemma StampFields(t: DateTime)
    requires ValidTime(t)
    ensures var s := Stamp(t);
      |s| == 15
      && s[0] == Pad4(t.year)[0] && s[1] == Pad4(t.year)[1]
      && s[2] == Pad4(t.year)[2] && s[3] == Pad4(t.year)[3]
      && s[4] == Pad2(t.month)[0] && s[5] == Pad2(t.month)[1]
      && s[6] == Pad2(t.day)[0] && s[7] == Pad2(t.day)[1]
      && s[9] == Pad2(t.hour)[0] && s[10] == Pad2(t.hour)[1]
      && s[11] == Pad2(t.minute)[0] && s[12] == Pad2(t.minute)[1]
      && s[13] == Pad2(t.second)[0] && s[14] == Pad2(t.second)[1]
  {
  }

  /** Distinct times give distinct stamps. */
  lemma StampInjective(t1: DateTime, t2: DateTime)
    requires ValidTime(t1) && ValidTime(t2) && Stamp(t1) == Stamp(t2)
    ensures t1 == t2
  {
    StampRoundTrip(t1);
    StampRoundTrip(t2);
  }

  /** `t1` is strictly earlier than `t2`. */
  predicate Earlier(t1: DateTime, t2: DateTime) {
    t1.year < t2.year
    || (t1.year == t2.year && (t1.month < t2.month
    || (t1.month == t2.month && (t1.day < t2.day
    || (t1.day == t2.day && (t1.hour < t2.hour
    || (t1.hour == t2.hour && (t1.minute < t2.minute
    || (t1.minute == t2.minute && t1.second < t2.second)))))))))
  }

  /** Python's `<` on strings: lexicographic by code point. */
  predicate LexLess(a: string, b: string) {
    if a == [] then b != []
    else if b == [] then false
    else a[0] < b[0] || (a[0] == b[0] && LexLess(a[1..], b[1..]))
  }

  lemma {:induction false} LexLessConcat(a1: string, a2: string, b1: string, b2: string)
    requires |a1| == |b1|
    requires LexLess(a1, b1) || (a1 == b1 && LexLess(a2, b2))
    ensures LexLess(a1 + a2, b1 + b2)
    decreases |a1|
  {
    if a1 == [] {
      assert a1 + a2 == a2 && b1 + b2 == b2;
    } else {
      assert (a1 + a2)[0] == a1[0] && (b1 + b2)[0] == b1[0];
      assert (a1 + a2)[1..] == a1[1..] + a2;
      assert (b1 + b2)[1..] == b1[1..] + b2;
      if a1[0] == b1[0] {
        assert LexLess(a1[1..], b1[1..]) || (a1[1..] == b1[1..] && LexLess(a2, b2));
        LexLessConcat(a1[1..], a2, b1[1..], b2);
      }
    }
  }

  lemma Pad2Order(m: int, n: int)
    requires 0 <= m < n < 100
    ensures LexLess(Pad2(m), Pad2(n))
  {
  }

  lemma Pad4Order(m: int, n: int)
    requires 1000 <= m < n <= 9999
    ensures LexLess(Pad4(m), Pad4(n))
  {
    if m / 100 < n / 100 {
      Pad2Order(m / 100, n / 100);
    } else {
      Pad2Order(m % 100, n % 100);
    }
    LexLessConcat(Pad2(m / 100), Pad2(m % 100), Pad2(n / 100), Pad2(n % 100));
  }

  /** Stamps sort in time order: a name generated in a later second sorts after. */
  lemma {:induction false} StampChronological(t1: DateTime, t2: DateTime)
    requires ValidTime(t1) && ValidTime(t2) && Earlier(t1, t2)
    ensures LexLess(Stamp(t1), Stamp(t2))
  {
    var s2a, s2b := Pad2(t1.second), Pad2(t2.second);
    var mi := Pad2(t1.minute) + s2a;
    var mi' := Pad2(t2.minute) + s2b;
    if t1.minute < t2.minute {
      Pad2Order(t1.minute, t2.minute);
    } else if t1.minute == t2.minute && t1.second < t2.second {
      Pad2Order(t1.second, t2.second);
    }
    if t1.minute < t2.minute || (t1.minute == t2.minute && t1.second < t2.second) {
      LexLessConcat(Pad2(t1.minute), s2a, Pad2(t2.minute), s2b);
    }
    var h := Pad2(t1.hour) + mi;
    var h' := Pad2(t2.hour) + mi';
    if t1.hour < t2.hour {
      Pad2Order(t1.hour, t2.hour);
    }
    if t1.hour < t2.hour || (t1.hour == t2.hour && LexLess(mi, mi')) {
      LexLessConcat(Pad2(t1.hour), mi, Pad2(t2.hour), mi');
    }
    var u := "_" + h;
    var u' := "_" + h';
    if LexLess(h, h') {
      LexLessConcat("_", h, "_", h');
    }
    var d := Pad2(t1.day) + u;
    var d' := Pad2(t2.day) + u';
    if t1.day < t2.day {
      Pad2Order(t1.day, t2.day);
    }
    if t1.day < t2.day || (t1.day == t2.day && LexLess(u, u')) {
      LexLessConcat(Pad2(t1.day), u, Pad2(t2.day), u');
    }
    var mo := Pad2(t1.month) + d;
    var mo' := Pad2(t2.month) + d';
    if t1.month < t2.month {
      Pad2Order(t1.month, t2.month);
    }
    if t1.month < t2.month || (t1.month == t2.month && LexLess(d, d')) {
      LexLessConcat(Pad2(t1.month), d, Pad2(t2.month), d');
    }
    if t1.year < t2.year {
      Pad4Order(t1.year, t2.year);
    }
    LexLessConcat(Pad4(t1.year), mo, Pad4(t2.year), mo');
  }

  // ---------------------------------------------------------------------------------------
  // Generated agent names

  /** `generate_unique_agent_name(base_name, mode="auto")`: `base_mode_YYYYMMDD_HHMMSS`,
      with the clock reading passed in. */
  function UniqueAgentName(base: string, now: DateTime, mode: string := "auto"): string
    requires ValidTime(now)
  {
    base + "_" + mode + "_" + Stamp(now)
  }

  /** A generated name ends in `_` and the fifteen-character stamp, which reads back to the
      clock reading, and it is never the base name. */
  lemma UniqueNameShape(base: string, mode: string, now: DateTime)
    requires ValidTime(now)
    ensures var n := UniqueAgentName(base, now, mode);
      |n| == |base| + |mode| + 17 && n[..|base|] == base && n[|base|] == '_'
      && n[|n| - 16] == '_' && ParseStamp(n[|n| - 15..]) == Some(now) && n != base
  {
    var n := UniqueAgentName(base, now, mode);
    StampShape(now);
    assert n[|n| - 15..] == Stamp(now);
    StampRoundTrip(now);
  }

  /** For a fixed base, the generated name determines both the mode and the clock reading. */
  lemma UniqueNameInjective(base: string, m1: string, m2: string, t1: DateTime, t2: DateTime)
    requires ValidTime(t1) && ValidTime(t2)
    requires UniqueAgentName(base, t1, m1) == UniqueAgentName(base, t2, m2)
    ensures m1 == m2 && t1 == t2
  {
    UniqueNameParts(base, m1, t1);
    UniqueNameParts(base, m2, t2);
    StampInjective(t1, t2);
  }

  /** The mode and the stamp sit at fixed places of a generated name. */
  lemma UniqueNameParts(base: string, mode: string, now: DateTime)
    requires ValidTime(now)
    ensures var n := UniqueAgentName(base, now, mode);
      |n| == |base| + |mode| + 17 && n[|base| + 1..|n| - 16] == mode && n[|n| - 15..] == Stamp(now)
  {
    StampShape(now);
  }

  /** For a fixed base and mode, names generated in later seconds sort later. */
  lemma UniqueNameChronological(base: string, mode: string, t1: DateTime, t2: DateTime)
    requires ValidTime(t1) && ValidTime(t2) && Earlier(t1, t2)
    ensures LexLess(UniqueAgentName(base, t1, mode), UniqueAgentName(base, t2, mode))
  {
    var p := base + "_" + mode + "_";
    StampChronological(t1, t2);
    LexLessConcat(p, Stamp(t1), p, Stamp(t2));
  }

  /** The conservative name charset: ASCII letters, digits, `_` and `-`. */
  predicate NameChars(s: string) {
    forall i :: 0 <= i < |s| ==>
      'a' <= s[i] <= 'z' || 'A' <= s[i] <= 'Z' || IsDigit(s[i]) || s[i] == '_' || s[i] == '-'
  }

  lemma UniqueNameCharset(base: string, mode: string, now: DateTime)
    requires ValidTime(now) && NameChars(base) && NameChars(mode)
    ensures NameChars(UniqueAgentName(base, now, mode))
  {
    StampShape(now);
    var n := UniqueAgentName(base, now, mode);
    forall i | 0 <= i < |n|
      ensures 'a' <= n[i] <= 'z' || 'A' <= n[i] <= 'Z' || IsDigit(n[i]) || n[i] == '_' || n[i] == '-'
    {
      if i < |base| {
        assert n[i] == base[i];
      } else if |base| + 1 <= i < |base| + 1 + |mode| {
        assert n[i] == mode[i - |base| - 1];
      } else if i >= |base| + |mode| + 2 {
        assert n[i] == Stamp(now)[i - |base| - |mode| - 2];
      }
    }
  }

  /** Over that charset a generated name fits on one `.env` line. */
  lemma UniqueNameSingleLine(base: string, mode: string, now: DateTime)
    requires ValidTime(now) && NameChars(base) && NameChars(mode)
    ensures '\n' !in UniqueAgentName(base, now, mode)
  {
    var n := UniqueAgentName(base, now, mode);
    UniqueNameCharset(base, mode, now);
    forall i | 0 <= i < |n|
      ensures n[i] != '\n'
    {
    }
  }

  /** The mode segment the conflict paths use: `"update" if auto_update else "recreate"`. */
  function ModeSegment(autoUpdate: bool): string {
    if autoUpdate then "update" else "recreate"
  }

  /** The name `deploy_with_conflict_resolution` deploys under: a fresh `update` name with
      `--auto-update`, else a fresh `recreate` name with `--force-recreate`, else the base. */
  function ChooseAgentName(base: string, autoUpdate: bool, forceRecreate: bool, now: DateTime): string
    requires ValidTime(now)
  {
    if autoUpdate then UniqueAgentName(base, now, "update")
    else if forceRecreate then UniqueAgentName(base, now, "recreate")
    else base
  }

  /** The base name is kept exactly when neither flag is given; otherwise the name is the
      generated name of the flag's mode (auto-update taking precedence). */
  lemma ChooseAgentNameSpec(base: string, autoUpdate: bool, forceRecreate: bool, now: DateTime)
    requires ValidTime(now)
    ensures ChooseAgentName(base, autoUpdate, forceRecreate, now) == base <==> !autoUpdate && !forceRecreate
    ensures autoUpdate || forceRecreate ==>
      ChooseAgentName(base, autoUpdate, forceRecreate, now) == UniqueAgentName(base, now, ModeSegment(autoUpdate))
  {
    UniqueNameShape(base, "update", now);
    UniqueNameShape(base, "recreate", now);
  }

  /** The name `deploy_with_conflict_handling` suggests after a conflict without a mode flag:
      `agent_name_YYYYMMDD_HHMMSS`, with no mode segment. */
  function SuggestedAgentName(agentName: string, now: DateTime): string
    requires ValidTime(now)
  {
    agentName + "_" + Stamp(now)
  }

  /** The suggested name is never the agent name, keeps the stamp, and never coincides with a
      generated name of either conflict mode. */
  lemma SuggestedNameShape(agentName: string, now: DateTime, mode: string, later: DateTime)
    requires ValidTime(now) && ValidTime(later) && mode in ["update", "recreate"]
    ensures var s := SuggestedAgentName(agentName, now);
      s != agentName && ParseStamp(s[|s| - 15..]) == Some(now)
      && s != UniqueAgentName(agentName, later, mode)
  {
    var s := SuggestedAgentName(agentName, now);
    StampShape(now);
    StampShape(later);
    assert s[|s| - 15..] == Stamp(now);
    StampRoundTrip(now);
    assert |s| == |agentName| + 16;
    assert |UniqueAgentName(agentName, later, mode)| == |agentName| + |mode| + 17;
  }

  /** What test_conflict_resolution.py prints: each mode's name is `base_mode_stamp`, the
      default mode is "auto", and the flag simulation picks "update", "recreate" or the base. */
  lemma NameGenerationExpectations(now: DateTime)
    requires ValidTime(now)
    ensures UniqueAgentName(DefaultAgentName, now) == "sbom_security_agent_auto_" + Stamp(now)
    ensures UniqueAgentName(DefaultAgentName, now, "update") == "sbom_security_agent_update_" + Stamp(now)
    ensures UniqueAgentName(DefaultAgentName, now, "recreate") == "sbom_security_agent_recreate_" + Stamp(now)
    ensures ChooseAgentName(DefaultAgentName, true, false, now) == UniqueAgentName(DefaultAgentName, now, "update")
    ensures ChooseAgentName(DefaultAgentName, false, true, now) == UniqueAgentName(DefaultAgentName, now, "recreate")
    ensures ChooseAgentName(DefaultAgentName, false, false, now) == DefaultAgentName
    ensures UniqueAgentName(DefaultAgentName, now) != UniqueAgentName(DefaultAgentName, now, "update")
  {
    UniqueNameShape(DefaultAgentName, "auto", now);
    UniqueNameShape(DefaultAgentName, "update", now);
  }
}
