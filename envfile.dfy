/** The `.env` file as the scripts read and write it.
    `save_agent_info_to_env` rewrites the file. It drops every line that starts with one of
    the seven keys it owns, keeps the other lines in order, and appends fresh key lines.
    The conflict-resolution scripts only append to the file.
    The file text is taken after Python's newline translation on reading. */
module EnvFile {
  import opened Text
  import opened Outcomes
  import opened Endpoint

  /** The Cognito record `find_cognito_info` returns. */
  datatype CognitoInfo = CognitoInfo(poolId: string, clientId: string, discoveryUrl: string)

  /** The keys `save_agent_info_to_env` owns, each with its `=`. */
  const ManagedKeys: seq<string> := [
    "AGENT_ENDPOINT=", "AGENT_ID=", "AGENT_NAME=", "AWS_REGION=",
    "COGNITO_CLIENT_ID=", "COGNITO_POOL_ID=", "COGNITO_DISCOVERY_URL="]

  /** The line starts with one of the owned keys. */
  predicate IsManaged(line: string) {
    exists i :: 0 <= i < |ManagedKeys| && StartsWith(line, ManagedKeys[i])
  }

  /** The list comprehension that drops the owned lines and keeps the rest in order. */
  function KeepUnmanaged(lines: seq<string>): (r: seq<string>)
    ensures |r| <= |lines|
  {
    if lines == [] then []
    else
      var last := lines[|lines| - 1];
      KeepUnmanaged(lines[..|lines| - 1]) + (if IsManaged(last) then [] else [last])
  }

  /** One `KEY=value` line, terminated by a newline. */
  function KeyLine(key: string, value: string): string {
    key + value + "\n"
  }

  /** The four agent lines, in the order they are appended. */
  function AgentLines(info: AgentInfo): seq<string> {
    [KeyLine("AGENT_ENDPOINT=", info.endpointUrl), KeyLine("AGENT_ID=", info.agentId),
     KeyLine("AGENT_NAME=", info.agentName), KeyLine("AWS_REGION=", info.region)]
  }

  /** The three Cognito lines, present only when Cognito information was found. */
  function CognitoLines(cognito: Option<CognitoInfo>): seq<string> {
    match cognito
    case None => []
    case Some(c) =>
      [KeyLine("COGNITO_CLIENT_ID=", c.clientId), KeyLine("COGNITO_POOL_ID=", c.poolId),
       KeyLine("COGNITO_DISCOVERY_URL=", c.discoveryUrl)]
  }

  /** The lines `save_agent_info_to_env` writes back, given the lines it read. */
  function SavedLines(existing: seq<string>, info: AgentInfo, cognito: Option<CognitoInfo>): seq<string> {
    KeepUnmanaged(existing) + AgentLines(info) + CognitoLines(cognito)
  }

  /** The rewrite of `save_agent_info_to_env`: filter the old lines, then append the fresh ones. */
  method SaveAgentInfoToEnv(existing: seq<string>, info: AgentInfo, cognito: Option<CognitoInfo>)
    returns (content: seq<string>)
    ensures content == SavedLines(existing, info, cognito)
  {
    content := [];
    var i := 0;
    while i < |existing|
      invariant 0 <= i <= |existing|
      invariant content == KeepUnmanaged(existing[..i])
    {
      assert existing[..i + 1][..i] == existing[..i];
      if !IsManaged(existing[i]) {
        content := content + [existing[i]];
      }
      i := i + 1;
    }
    assert existing[..i] == existing;
    content := content + [KeyLine("AGENT_ENDPOINT=", info.endpointUrl)];
    content := content + [KeyLine("AGENT_ID=", info.agentId)];
    content := content + [KeyLine("AGENT_NAME=", info.agentName)];
    content := content + [KeyLine("AWS_REGION=", info.region)];
    if cognito.Some? {
      content := content + [KeyLine("COGNITO_CLIENT_ID=", cognito.value.clientId)];
      content := content + [KeyLine("COGNITO_POOL_ID=", cognito.value.poolId)];
      content := content + [KeyLine("COGNITO_DISCOVERY_URL=", cognito.value.discoveryUrl)];
    }
  }

  // ---------------------------------------------------------------------------------------
  // What the filter keeps

  lemma {:induction false} KeepUnmanagedConcat(a: seq<string>, b: seq<string>)
    ensures KeepUnmanaged(a + b) == KeepUnmanaged(a) + KeepUnmanaged(b)
    decreases |b|
  {
    if b == [] {
      assert a + b == a;
    } else {
      var b' := b[..|b| - 1];
      assert (a + b)[..|a + b| - 1] == a + b';
      KeepUnmanagedConcat(a, b');
    }
  }

  /** A line survives the filter iff it was in the file and does not start with an owned key. */
  lemma {:induction false} KeepUnmanagedMembers(lines: seq<string>, x: string)
    ensures x in KeepUnmanaged(lines) <==> x in lines && !IsManaged(x)
    decreases |lines|
  {
    if lines != [] {
      var init := lines[..|lines| - 1];
      KeepUnmanagedMembers(init, x);
      assert lines == init + [lines[|lines| - 1]];
    }
  }

  /** A file without owned lines is kept whole, in its order. */
  lemma {:induction false} KeepUnmanagedNoop(lines: seq<string>)
    requires forall i :: 0 <= i < |lines| ==> !IsManaged(lines[i])
    ensures KeepUnmanaged(lines) == lines
    decreases |lines|
  {
    if lines != [] {
      KeepUnmanagedNoop(lines[..|lines| - 1]);
    }
  }

  lemma {:induction false} KeepUnmanagedAllManaged(lines: seq<string>)
    requires forall i :: 0 <= i < |lines| ==> IsManaged(lines[i])
    ensures KeepUnmanaged(lines) == []
    decreases |lines|
  {
    if lines != [] {
      KeepUnmanagedAllManaged(lines[..|lines| - 1]);
    }
  }

  // ---------------------------------------------------------------------------------------
  // Distinct keys

  /** A key whose only `=` is its last character. */
  predicate KeyShape(k: string) {
    |k| > 0 && k[|k| - 1] == '=' && '=' !in k[..|k| - 1]
  }

  /** Two different well-shaped keys never start the same line. */
  lemma DistinctKeys(k1: string, k2: string, x: string)
    requires KeyShape(k1) && KeyShape(k2) && k1 != k2
    ensures !StartsWith(k1 + x, k2)
  {
    if |k2| < |k1| {
      assert k1[..|k1| - 1][|k2| - 1] == (k1 + x)[|k2| - 1];
      assert (k1 + x)[|k2| - 1] != k2[|k2| - 1];
    } else if |k2| == |k1| {
      assert (k1 + x)[..|k2|] == k1;
    } else if |k2| <= |k1 + x| {
      assert k2[..|k2| - 1][|k1| - 1] == k2[|k1| - 1];
      assert (k1 + x)[|k1| - 1] != k2[|k1| - 1];
    }
  }

  lemma KeyLineStarts(k: string, v: string)
    ensures StartsWith(KeyLine(k, v), k)
  {
    assert KeyLine(k, v)[..|k|] == k;
  }

  lemma KeyLineOther(k1: string, k2: string, v: string)
    requires KeyShape(k1) && KeyShape(k2) && k1 != k2
    ensures !StartsWith(KeyLine(k1, v), k2)
  {
    assert KeyLine(k1, v) == k1 + (v + "\n");
    DistinctKeys(k1, k2, v + "\n");
  }

  lemma ManagedKeysShaped()
    ensures forall i :: 0 <= i < |ManagedKeys| ==> KeyShape(ManagedKeys[i])
  {
    assert KeyShape("AGENT_ENDPOINT=");
    assert KeyShape("AGENT_ID=");
    assert KeyShape("AGENT_NAME=");
    assert KeyShape("AWS_REGION=");
    assert KeyShape("COGNITO_CLIENT_ID=");
    assert KeyShape("COGNITO_POOL_ID=");
    assert KeyShape("COGNITO_DISCOVERY_URL=");
  }

  lemma KeyLineManaged(i: nat, v: string)
    requires i < |ManagedKeys|
    ensures IsManaged(KeyLine(ManagedKeys[i], v))
  {
    KeyLineStarts(ManagedKeys[i], v);
  }

  /** The fresh lines are all owned lines, so a later rewrite drops them. */
  lemma FreshLinesManaged(info: AgentInfo, cognito: Option<CognitoInfo>)
    ensures KeepUnmanaged(AgentLines(info) + CognitoLines(cognito)) == []
  {
    var a, c := AgentLines(info), CognitoLines(cognito);
    AgentLinesManaged(info);
    CognitoLinesManaged(cognito);
    forall i | 0 <= i < |a + c|
      ensures IsManaged((a + c)[i])
    {
      if i < |a| {
        assert (a + c)[i] == a[i];
      } else {
        assert (a + c)[i] == c[i - |a|];
      }
    }
    KeepUnmanagedAllManaged(a + c);
  }

  lemma AgentLinesManaged(info: AgentInfo)
    ensures forall i :: 0 <= i < |AgentLines(info)| ==> IsManaged(AgentLines(info)[i])
  {
    KeyLineManaged(0, info.endpointUrl);
    KeyLineManaged(1, info.agentId);
    KeyLineManaged(2, info.agentName);
    KeyLineManaged(3, info.region);
  }

  lemma CognitoLinesManaged(cognito: Option<CognitoInfo>)
    ensures forall i :: 0 <= i < |CognitoLines(cognito)| ==> IsManaged(CognitoLines(cognito)[i])
  {
    if cognito.Some? {
      KeyLineManaged(4, cognito.value.clientId);
      KeyLineManaged(5, cognito.value.poolId);
      KeyLineManaged(6, cognito.value.discoveryUrl);
    }
  }

  // ---------------------------------------------------------------------------------------
  // The lines for one key

  /** The lines that start with `key`, in order. */
  function KeyLines(lines: seq<string>, key: string): (r: seq<string>)
    ensures |r| <= |lines|
  {
    if lines == [] then []
    else
      var last := lines[|lines| - 1];
      KeyLines(lines[..|lines| - 1], key) + (if StartsWith(last, key) then [last] else [])
  }

  lemma {:induction false} KeyLinesConcat(a: seq<string>, b: seq<string>, key: string)
    ensures KeyLines(a + b, key) == KeyLines(a, key) + KeyLines(b, key)
    decreases |b|
  {
    if b == [] {
      assert a + b == a;
    } else {
      var b' := b[..|b| - 1];
      assert (a + b)[..|a + b| - 1] == a + b';
      KeyLinesConcat(a, b', key);
    }
  }

  /** After the filter no line starts with an owned key. */
  lemma {:induction false} KeptHasNoKeyLines(lines: seq<string>, i: nat)
    requires i < |ManagedKeys|
    ensures KeyLines(KeepUnmanaged(lines), ManagedKeys[i]) == []
    decreases |lines|
  {
    if lines != [] {
      var init := lines[..|lines| - 1];
      var last := lines[|lines| - 1];
      KeptHasNoKeyLines(init, i);
      var tail := if IsManaged(last) then [] else [last];
      KeyLinesConcat(KeepUnmanaged(init), tail, ManagedKeys[i]);
      if !IsManaged(last) {
        assert [last][..0] == [];
      }
    }
  }

  /** The owned keys are pairwise different. */
  lemma ManagedKeysDistinct()
    ensures forall a, b :: 0 <= a < b < |ManagedKeys| ==> ManagedKeys[a] != ManagedKeys[b]
  {
    assert ManagedKeys[2][1] != ManagedKeys[3][1];
  }

  /** The lines made from the first `n` owned keys and the values `vals`. */
  function KeyedLines(vals: seq<string>, n: nat): (r: seq<string>)
    requires n <= |vals| && n <= |ManagedKeys|
    ensures |r| == n
    ensures forall i :: 0 <= i < n ==> r[i] == KeyLine(ManagedKeys[i], vals[i])
  {
    if n == 0 then [] else KeyedLines(vals, n - 1) + [KeyLine(ManagedKeys[n - 1], vals[n - 1])]
  }

  /** Among lines made from different owned keys, exactly the line of key `j` starts with it. */
  lemma {:induction false} KeyLinesOfKeyed(vals: seq<string>, n: nat, j: nat)
    requires n <= |vals| && n <= |ManagedKeys| && j < |ManagedKeys|
    ensures KeyLines(KeyedLines(vals, n), ManagedKeys[j]) == (if j < n then [KeyLine(ManagedKeys[j], vals[j])] else [])
    decreases n
  {
    if n > 0 {
      KeyLinesOfKeyed(vals, n - 1, j);
      var lines := KeyedLines(vals, n);
      assert lines[..n - 1] == KeyedLines(vals, n - 1);
      if n - 1 == j {
        KeyLineStarts(ManagedKeys[j], vals[j]);
      } else {
        ManagedKeysShaped();
        ManagedKeysDistinct();
        KeyLineOther(ManagedKeys[n - 1], ManagedKeys[j], vals[n - 1]);
      }
    }
  }

  /** Among the fresh lines, exactly the one appended for the `j`-th key starts with it. */
  lemma FreshKeyLines(info: AgentInfo, cognito: Option<CognitoInfo>, j: nat)
    requires j < |ManagedKeys|
    ensures KeyLines(AgentLines(info) + CognitoLines(cognito), ManagedKeys[j]) ==
      (if j < 4 then [AgentLines(info)[j]]
       else if cognito.Some? then [CognitoLines(cognito)[j - 4]]
       else [])
  {
    var vals := [info.endpointUrl, info.agentId, info.agentName, info.region];
    if cognito.Some? {
      vals := vals + [cognito.value.clientId, cognito.value.poolId, cognito.value.discoveryUrl];
    }
    var lines := AgentLines(info) + CognitoLines(cognito);
    assert lines == KeyedLines(vals, |vals|);
    KeyLinesOfKeyed(vals, |vals|, j);
  }

  // ---------------------------------------------------------------------------------------
  // Properties of the rewrite

  /** Each agent key appears on exactly one line, carrying the new value. */
  lemma OneLinePerAgentKey(existing: seq<string>, info: AgentInfo, cognito: Option<CognitoInfo>, j: nat)
    requires j < 4
    ensures KeyLines(SavedLines(existing, info, cognito), ManagedKeys[j]) == [AgentLines(info)[j]]
  {
    KeyLinesConcat(KeepUnmanaged(existing), AgentLines(info) + CognitoLines(cognito), ManagedKeys[j]);
    assert SavedLines(existing, info, cognito) == KeepUnmanaged(existing) + (AgentLines(info) + CognitoLines(cognito));
    KeptHasNoKeyLines(existing, j);
    FreshKeyLines(info, cognito, j);
  }

  /** A Cognito key appears on one line with the new value when Cognito information is given,
      and on no line otherwise: old Cognito lines are dropped either way. */
  lemma CognitoLinesIff(existing: seq<string>, info: AgentInfo, cognito: Option<CognitoInfo>, j: nat)
    requires 4 <= j < 7
    ensures KeyLines(SavedLines(existing, info, cognito), ManagedKeys[j]) ==
      (if cognito.Some? then [CognitoLines(cognito)[j - 4]] else [])
  {
    KeyLinesConcat(KeepUnmanaged(existing), AgentLines(info) + CognitoLines(cognito), ManagedKeys[j]);
    assert SavedLines(existing, info, cognito) == KeepUnmanaged(existing) + (AgentLines(info) + CognitoLines(cognito));
    KeptHasNoKeyLines(existing, j);
    FreshKeyLines(info, cognito, j);
  }

  /** Rerunning the rewrite with the same data gives the same lines. */
  lemma SaveIdempotent(existing: seq<string>, info: AgentInfo, cognito: Option<CognitoInfo>)
    ensures SavedLines(SavedLines(existing, info, cognito), info, cognito) == SavedLines(existing, info, cognito)
  {
    var kept := KeepUnmanaged(existing);
    var newLines := AgentLines(info) + CognitoLines(cognito);
    var once := SavedLines(existing, info, cognito);
    assert once == kept + newLines;
    assert KeepUnmanaged(once) == kept by {
      KeepUnmanagedConcat(kept, newLines);
      FreshLinesManaged(info, cognito);
      KeepTwice(existing);
      assert kept + [] == kept;
    }
    assert SavedLines(once, info, cognito) == KeepUnmanaged(once) + newLines;
  }

  /** The filter is idempotent. */
  lemma {:induction false} KeepTwice(lines: seq<string>)
    ensures KeepUnmanaged(KeepUnmanaged(lines)) == KeepUnmanaged(lines)
    decreases |lines|
  {
    if lines != [] {
      var init := lines[..|lines| - 1];
      var last := lines[|lines| - 1];
      KeepTwice(init);
      var tail := if IsManaged(last) then [] else [last];
      KeepUnmanagedConcat(KeepUnmanaged(init), tail);
      if !IsManaged(last) {
        assert [last][..0] == [];
      }
    }
  }

  // ---------------------------------------------------------------------------------------
  // The file text

  /** `f.readlines()`: the text cut after every newline; a last line without one is kept. */
  function ReadLines(text: string): seq<string>
    decreases |text|
  {
    if text == [] then []
    else
      var i := FirstOf(text, {'\n'});
      if i == |text| then [text] else [text[..i + 1]] + ReadLines(text[i + 1..])
  }

  /** `f.writelines(lines)`: the lines concatenated. */
  function WriteLines(lines: seq<string>): string {
    if lines == [] then [] else lines[0] + WriteLines(lines[1..])
  }

  /** A complete line: one newline, at its end. */
  predicate IsLine(l: string) {
    |l| > 0 && FirstOf(l, {'\n'}) == |l| - 1
  }

  predicate AllLines(lines: seq<string>) {
    forall i :: 0 <= i < |lines| ==> IsLine(lines[i])
  }

  /** Writing what was read gives the text back. */
  lemma {:induction false} WriteReadLines(text: string)
    ensures WriteLines(ReadLines(text)) == text
    decreases |text|
  {
    if text != [] {
      var i := FirstOf(text, {'\n'});
      if i < |text| {
        WriteReadLines(text[i + 1..]);
        assert text[..i + 1] + text[i + 1..] == text;
      }
    }
  }

  /** A complete line followed by more text is read as that line first. */
  lemma ReadLinesLine(l: string, rest: string)
    requires IsLine(l)
    ensures ReadLines(l + rest) == [l] + ReadLines(rest)
  {
    var s := l + rest;
    FirstOfAppend(l, rest, {'\n'});
    assert s[..|l|] == l;
    assert s[|l|..] == rest;
  }

  lemma WriteLinesCons(lines: seq<string>)
    requires lines != []
    ensures WriteLines(lines) == lines[0] + WriteLines(lines[1..])
  {
  }

  /** The first written line is read first, before what the rest of the text holds. */
  lemma ReadLinesStep(lines: seq<string>, rest: string)
    requires lines != [] && IsLine(lines[0])
    ensures ReadLines(WriteLines(lines) + rest) == [lines[0]] + ReadLines(WriteLines(lines[1..]) + rest)
  {
    var l, w := lines[0], WriteLines(lines[1..]);
    WriteLinesCons(lines);
    assert WriteLines(lines) + rest == l + (w + rest);
    ReadLinesLine(l, w + rest);
  }

  /** Text made of complete lines reads back as those lines, whatever follows. */
  lemma {:induction false} ReadLinesAfterLines(lines: seq<string>, rest: string)
    requires AllLines(lines)
    ensures ReadLines(WriteLines(lines) + rest) == lines + ReadLines(rest)
    decreases |lines|
  {
    if lines == [] {
      assert WriteLines(lines) + rest == rest;
    } else {
      assert IsLine(lines[0]) && AllLines(lines[1..]);
      ReadLinesAfterLines(lines[1..], rest);
      ReadLinesStep(lines, rest);
      ConsAppend(lines, ReadLines(rest));
    }
  }

  lemma ConsAppend(lines: seq<string>, tail: seq<string>)
    requires lines != []
    ensures [lines[0]] + (lines[1..] + tail) == lines + tail
  {
    assert lines == [lines[0]] + lines[1..];
  }

  /** Text that is empty or ends with a newline reads as complete lines only. */
  lemma {:induction false} ReadLinesTerminated(text: string)
    requires text == [] || text[|text| - 1] == '\n'
    ensures AllLines(ReadLines(text))
    decreases |text|
  {
    if text != [] {
      var i := FirstOf(text, {'\n'});
      assert i < |text| by {
        FirstOfFound(text, {'\n'}, '\n');
      }
      var rest := text[i + 1..];
      assert rest == [] || rest[|rest| - 1] == text[|text| - 1];
      ReadLinesTerminated(rest);
      FirstLineIsLine(text);
      assert ReadLines(text) == [text[..i + 1]] + ReadLines(rest);
      AllLinesCons(text[..i + 1], ReadLines(rest));
    }
  }

  lemma AllLinesCons(line: string, lines: seq<string>)
    requires IsLine(line) && AllLines(lines)
    ensures AllLines([line] + lines)
  {
  }

  /** Up to and including the first newline is one complete line. */
  lemma FirstLineIsLine(text: string)
    requires FirstOf(text, {'\n'}) < |text|
    ensures IsLine(text[..FirstOf(text, {'\n'}) + 1])
  {
    var i := FirstOf(text, {'\n'});
    var l := text[..i + 1];
    assert l[..i] == text[..i];
    FirstOfUnique(l, {'\n'}, i);
  }

  lemma KeepKeepsLines(lines: seq<string>)
    requires AllLines(lines)
    ensures AllLines(KeepUnmanaged(lines))
  {
    var kept := KeepUnmanaged(lines);
    forall i | 0 <= i < |kept|
      ensures IsLine(kept[i])
    {
      KeepUnmanagedMembers(lines, kept[i]);
    }
  }

  /** Text without a newline, then a newline, is one complete line. */
  lemma LineOf(body: string)
    requires NoneOf(body, {'\n'})
    ensures IsLine(body + "\n")
  {
    assert (body + "\n")[..|body|] == body;
    FirstOfUnique(body + "\n", {'\n'}, |body|);
  }

  lemma KeyLineIsLine(key: string, value: string)
    requires '\n' !in key && '\n' !in value
    ensures IsLine(KeyLine(key, value))
  {
    assert NoneOf(key, {'\n'}) && NoneOf(value, {'\n'});
    NoneOfConcat(key, value, {'\n'});
    LineOf(key + value);
  }

  /** No value of the record holds a newline. */
  predicate SingleLineValues(info: AgentInfo, cognito: Option<CognitoInfo>) {
    '\n' !in info.endpointUrl && '\n' !in info.agentId && '\n' !in info.agentName && '\n' !in info.region
    && (cognito.Some? ==>
          '\n' !in cognito.value.clientId && '\n' !in cognito.value.poolId && '\n' !in cognito.value.discoveryUrl)
  }

  lemma FreshAreLines(info: AgentInfo, cognito: Option<CognitoInfo>)
    requires SingleLineValues(info, cognito)
    ensures AllLines(AgentLines(info) + CognitoLines(cognito))
  {
    var a, c := AgentLines(info), CognitoLines(cognito);
    AgentLinesAreLines(info);
    CognitoLinesAreLines(cognito);
    forall i | 0 <= i < |a + c|
      ensures IsLine((a + c)[i])
    {
      if i < |a| {
        assert (a + c)[i] == a[i];
      } else {
        assert (a + c)[i] == c[i - |a|];
      }
    }
  }

  lemma AgentLinesAreLines(info: AgentInfo)
    requires '\n' !in info.endpointUrl && '\n' !in info.agentId && '\n' !in info.agentName && '\n' !in info.region
    ensures AllLines(AgentLines(info))
  {
    assert '\n' !in "AGENT_ENDPOINT=" && '\n' !in "AGENT_ID=" && '\n' !in "AGENT_NAME=" && '\n' !in "AWS_REGION=";
    KeyLineIsLine("AGENT_ENDPOINT=", info.endpointUrl);
    KeyLineIsLine("AGENT_ID=", info.agentId);
    KeyLineIsLine("AGENT_NAME=", info.agentName);
    KeyLineIsLine("AWS_REGION=", info.region);
  }

  lemma CognitoLinesAreLines(cognito: Option<CognitoInfo>)
    requires cognito.Some? ==>
      '\n' !in cognito.value.clientId && '\n' !in cognito.value.poolId && '\n' !in cognito.value.discoveryUrl
    ensures AllLines(CognitoLines(cognito))
  {
    if cognito.Some? {
      assert '\n' !in "COGNITO_CLIENT_ID=" && '\n' !in "COGNITO_POOL_ID=" && '\n' !in "COGNITO_DISCOVERY_URL=";
      KeyLineIsLine("COGNITO_CLIENT_ID=", cognito.value.clientId);
      KeyLineIsLine("COGNITO_POOL_ID=", cognito.value.poolId);
      KeyLineIsLine("COGNITO_DISCOVERY_URL=", cognito.value.discoveryUrl);
    }
  }

  /** The file `save_agent_info_to_env` writes, as written: the old lines, filtered, then the
      fresh ones, with no newline added to an unterminated last line. */
  function SaveText(text: string, info: AgentInfo, cognito: Option<CognitoInfo>): string {
    WriteLines(SavedLines(ReadLines(text), info, cognito))
  }

  /** The text the rewrite writes for an old file holding one unterminated line `prior`. */
  lemma GluedWrite(prior: string, info: AgentInfo, cognito: Option<CognitoInfo>)
    requires prior != [] && '\n' !in prior && !IsManaged(prior)
    ensures var newLines := AgentLines(info) + CognitoLines(cognito);
      SaveText(prior, info, cognito) == WriteLines([prior + newLines[0]] + newLines[1..])
  {
    var newLines := AgentLines(info) + CognitoLines(cognito);
    UnterminatedReadsWhole(prior);
    assert KeepUnmanaged([prior]) == [prior] by {
      assert [prior][..0] == [];
    }
    assert SavedLines([prior], info, cognito) == [prior] + newLines;
    WriteLinesGlue(prior, newLines);
  }

  /** Text without a newline is read as one line. */
  lemma UnterminatedReadsWhole(prior: string)
    requires prior != [] && '\n' !in prior
    ensures ReadLines(prior) == [prior]
  {
    assert NoneOf(prior, {'\n'});
    FirstOfNone(prior, {'\n'});
  }

  /** Writing a line before others is the same as gluing it to the first of them. */
  lemma WriteLinesGlue(prior: string, lines: seq<string>)
    requires lines != []
    ensures WriteLines([prior] + lines) == WriteLines([prior + lines[0]] + lines[1..])
  {
    assert ([prior] + lines)[1..] == lines;
    assert ([prior + lines[0]] + lines[1..])[1..] == lines[1..];
    WriteLinesCons(lines);
  }

  /** The glued first line is a complete line that starts with `prior`. */
  lemma GluedLine(prior: string, info: AgentInfo)
    requires prior != [] && '\n' !in prior && '\n' !in info.endpointUrl
    ensures IsLine(prior + KeyLine("AGENT_ENDPOINT=", info.endpointUrl))
    ensures StartsWith(prior + KeyLine("AGENT_ENDPOINT=", info.endpointUrl), prior)
  {
    var glued := prior + KeyLine("AGENT_ENDPOINT=", info.endpointUrl);
    var body := prior + ("AGENT_ENDPOINT=" + info.endpointUrl);
    assert glued == body + "\n";
    assert NoneOf(prior, {'\n'}) && NoneOf(info.endpointUrl, {'\n'}) && NoneOf("AGENT_ENDPOINT=", {'\n'});
    NoneOfConcat("AGENT_ENDPOINT=", info.endpointUrl, {'\n'});
    NoneOfConcat(prior, "AGENT_ENDPOINT=" + info.endpointUrl, {'\n'});
    LineOf(body);
    assert glued[..|prior|] == prior;
  }

  /** No fresh line after the first starts with `AGENT_ENDPOINT=`. */
  lemma EndpointOnlyFirst(info: AgentInfo, cognito: Option<CognitoInfo>)
    ensures var newLines := AgentLines(info) + CognitoLines(cognito);
      KeyLines(newLines[1..], "AGENT_ENDPOINT=") == []
  {
    var newLines := AgentLines(info) + CognitoLines(cognito);
    FreshKeyLines(info, cognito, 0);
    assert newLines == [newLines[0]] + newLines[1..];
    KeyLinesConcat([newLines[0]], newLines[1..], "AGENT_ENDPOINT=");
    KeyLineStarts("AGENT_ENDPOINT=", info.endpointUrl);
    assert [newLines[0]][..0] == [];
  }

  /** An old file whose last line `FOO=1` has no newline: the endpoint line is glued to it, so
      the rewritten file has no line that starts with `AGENT_ENDPOINT=`. */
  lemma UnterminatedLastLineSwallowsEndpoint(info: AgentInfo, cognito: Option<CognitoInfo>)
    requires SingleLineValues(info, cognito)
    ensures ReadLines(SaveText("FOO=1", info, cognito))[0] == "FOO=1" + KeyLine("AGENT_ENDPOINT=", info.endpointUrl)
    ensures KeyLines(ReadLines(SaveText("FOO=1", info, cognito)), "AGENT_ENDPOINT=") == []
  {
    var newLines := AgentLines(info) + CognitoLines(cognito);
    var glued := "FOO=1" + newLines[0];
    var written := [glued] + newLines[1..];
    GluedReadBack("FOO=1", info, cognito);
    assert KeyLines(written, "AGENT_ENDPOINT=") == [] by {
      assert KeyLines([glued], "AGENT_ENDPOINT=") == [] by {
        assert glued[0] == 'F';
      }
      KeyLinesConcat([glued], newLines[1..], "AGENT_ENDPOINT=");
      EndpointOnlyFirst(info, cognito);
    }
  }

  /** The rewritten file reads back as the glued line, then the other fresh lines. */
  lemma GluedReadBack(prior: string, info: AgentInfo, cognito: Option<CognitoInfo>)
    requires SingleLineValues(info, cognito) && prior != [] && '\n' !in prior && !IsManaged(prior)
    ensures var newLines := AgentLines(info) + CognitoLines(cognito);
      ReadLines(SaveText(prior, info, cognito)) == [prior + newLines[0]] + newLines[1..]
  {
    var newLines := AgentLines(info) + CognitoLines(cognito);
    var written := [prior + newLines[0]] + newLines[1..];
    GluedWrite(prior, info, cognito);
    GluedLine(prior, info);
    FreshAreLines(info, cognito);
    ReplaceFirstLine(prior + newLines[0], newLines);
    ReadWritten(written);
  }

  lemma ReplaceFirstLine(l: string, lines: seq<string>)
    requires IsLine(l) && AllLines(lines) && lines != []
    ensures AllLines([l] + lines[1..])
  {
    var r := [l] + lines[1..];
    forall i | 0 <= i < |r|
      ensures IsLine(r[i])
    {
      if i > 0 {
        assert r[i] == lines[i];
      }
    }
  }

  /** The old text with its last line terminated, as the append-only writers do with their
      leading newline. */
  function Terminated(text: string): (r: string)
    ensures r == [] || r[|r| - 1] == '\n'
  {
    if text == [] || text[|text| - 1] == '\n' then text else text + "\n"
  }

  /** The rewrite with the last old line terminated before the fresh lines are appended. */
  function SaveTextTerminated(text: string, info: AgentInfo, cognito: Option<CognitoInfo>): string {
    WriteLines(SavedLines(ReadLines(Terminated(text)), info, cognito))
  }

  /** With the last line terminated, the file reads back as exactly the lines written. */
  lemma SaveTextTerminatedReadsBack(text: string, info: AgentInfo, cognito: Option<CognitoInfo>)
    requires SingleLineValues(info, cognito)
    ensures ReadLines(SaveTextTerminated(text, info, cognito)) == SavedLines(ReadLines(Terminated(text)), info, cognito)
  {
    var prior := ReadLines(Terminated(text));
    ReadLinesTerminated(Terminated(text));
    KeepKeepsLines(prior);
    FreshAreLines(info, cognito);
    var written := SavedLines(prior, info, cognito);
    assert written == KeepUnmanaged(prior) + (AgentLines(info) + CognitoLines(cognito));
    assert AllLines(written);
    ReadWritten(written);
  }

  /** So every agent key is on exactly one line of the file, with its new value. */
  lemma SaveTextTerminatedOneLinePerKey(text: string, info: AgentInfo, cognito: Option<CognitoInfo>, j: nat)
    requires SingleLineValues(info, cognito) && j < 4
    ensures KeyLines(ReadLines(SaveTextTerminated(text, info, cognito)), ManagedKeys[j]) == [AgentLines(info)[j]]
  {
    SaveTextTerminatedReadsBack(text, info, cognito);
    OneLinePerAgentKey(ReadLines(Terminated(text)), info, cognito, j);
  }

  // ---------------------------------------------------------------------------------------
  // Append-only writers

  /** An append of a newline, a comment line and one `KEY=value` line. */
  function AppendNamed(text: string, comment: string, key: string, name: string): string {
    text + "\n" + comment + KeyLine(key, name)
  }

  /** The comment line the simple enhanced script writes before the generated name. */
  const ConflictComment := ConflictCommentText + "\n"

  const ConflictCommentText := "# Auto-generated agent name from conflict resolution"

  /** The append after a conflict in auto or force mode: a new `AGENT_NAME=` line. */
  function AppendConflictName(text: string, name: string): string {
    AppendNamed(text, ConflictComment, "AGENT_NAME=", name)
  }

  /** The comment line the working script writes, with `str(datetime.now())` inside. */
  function DeployedComment(now: string): string {
    ConflictCommentText + " (" + now + ")\n"
  }

  /** The append after a deploy under a generated name: a `DEPLOYED_AGENT_NAME=` line. */
  function AppendDeployedName(text: string, now: string, name: string): string {
    AppendNamed(text, DeployedComment(now), "DEPLOYED_AGENT_NAME=", name)
  }

  /** The appended text reads as the old lines, the last one terminated, then the comment and
      the key line; the leading newline keeps the key line from being glued to old text. */
  lemma AppendNamedLines(text: string, comment: string, key: string, name: string)
    requires IsLine(comment) && '\n' !in key && '\n' !in name
    ensures ReadLines(AppendNamed(text, comment, key, name)) ==
      ReadLines(text + "\n") + [comment, KeyLine(key, name)]
  {
    var line := KeyLine(key, name);
    KeyLineIsLine(key, name);
    TwoLinesRead(comment, line);
    TerminatedThenText(text + "\n", comment + line);
    AppendNamedSplit(text, comment, key, name);
  }

  lemma AppendNamedSplit(text: string, comment: string, key: string, name: string)
    ensures AppendNamed(text, comment, key, name) == (text + "\n") + (comment + KeyLine(key, name))
  {
  }

  /** Two complete lines read back as those two lines. */
  lemma TwoLinesRead(a: string, b: string)
    requires IsLine(a) && IsLine(b)
    ensures ReadLines(a + b) == [a, b]
  {
    ReadLinesLine(a, b);
    ReadLinesLine(b, []);
    assert b + [] == b;
  }

  /** Text that ends with a newline is read on its own, whatever follows it. */
  lemma TerminatedThenText(head: string, more: string)
    requires head == [] || head[|head| - 1] == '\n'
    ensures ReadLines(head + more) == ReadLines(head) + ReadLines(more)
  {
    ReadLinesTerminated(head);
    WriteReadLines(head);
    ReadLinesAfterLines(ReadLines(head), more);
  }

  /** Complete lines, written, read back as themselves. */
  lemma ReadWritten(lines: seq<string>)
    requires AllLines(lines)
    ensures ReadLines(WriteLines(lines)) == lines
  {
    ReadLinesAfterLines(lines, []);
    assert WriteLines(lines) + [] == WriteLines(lines);
    assert lines + ReadLines([]) == lines;
  }

  /** The comment text starts with `#` and holds no line break. */
  lemma ConflictCommentTextSingleLine()
    ensures |ConflictCommentText| > 0 && ConflictCommentText[0] == '#'
    ensures NoneOf(ConflictCommentText, {'\n'})
  {
    assert ConflictCommentText == "# Auto-generated agent name " + "from conflict resolution";
    NoneOfConcat("# Auto-generated agent name ", "from conflict resolution", {'\n'});
  }

  lemma ConflictCommentIsLine()
    ensures IsLine(ConflictComment) && !StartsWith(ConflictComment, "AGENT_NAME=")
  {
    ConflictCommentTextSingleLine();
    LineOf(ConflictCommentText);
    assert ConflictComment[0] == ConflictCommentText[0] == '#';
  }

  /** The generated name is added as the last `AGENT_NAME=` line; earlier ones stay. */
  lemma ConflictNameAddsLine(text: string, name: string)
    requires '\n' !in name
    ensures KeyLines(ReadLines(AppendConflictName(text, name)), "AGENT_NAME=") ==
      KeyLines(ReadLines(text + "\n"), "AGENT_NAME=") + [KeyLine("AGENT_NAME=", name)]
  {
    ConflictCommentIsLine();
    AppendNamedLines(text, ConflictComment, "AGENT_NAME=", name);
    KeyLinesConcat(ReadLines(text + "\n"), [ConflictComment, KeyLine("AGENT_NAME=", name)], "AGENT_NAME=");
    KeyLineStarts("AGENT_NAME=", name);
    assert [ConflictComment, KeyLine("AGENT_NAME=", name)][..1] == [ConflictComment];
  }

  lemma {:induction false} KeyLinesMembers(lines: seq<string>, key: string, x: string)
    ensures x in KeyLines(lines, key) <==> x in lines && StartsWith(x, key)
    decreases |lines|
  {
    if lines != [] {
      var init := lines[..|lines| - 1];
      KeyLinesMembers(init, key, x);
      assert lines == init + [lines[|lines| - 1]];
    }
  }

  lemma KeyLineInjective(key: string, a: string, b: string)
    requires KeyLine(key, a) == KeyLine(key, b)
    ensures a == b
  {
    assert a == KeyLine(key, a)[|key|..|key| + |a|];
  }

  /** A later `save_agent_info_to_env` drops the generated `AGENT_NAME=` line. */
  lemma SaveDropsConflictName(text: string, name: string, info: AgentInfo, cognito: Option<CognitoInfo>)
    requires info.agentName != name
    ensures KeyLine("AGENT_NAME=", name) !in SavedLines(ReadLines(AppendConflictName(text, name)), info, cognito)
  {
    var lines := ReadLines(AppendConflictName(text, name));
    var x := KeyLine("AGENT_NAME=", name);
    var newLines := AgentLines(info) + CognitoLines(cognito);
    assert x !in KeepUnmanaged(lines) by {
      KeyLineManaged(2, name);
      KeepUnmanagedMembers(lines, x);
    }
    assert x !in newLines by {
      FreshKeyLines(info, cognito, 2);
      KeyLinesMembers(newLines, "AGENT_NAME=", x);
      KeyLineStarts("AGENT_NAME=", name);
      if x == KeyLine("AGENT_NAME=", info.agentName) {
        KeyLineInjective("AGENT_NAME=", name, info.agentName);
      }
    }
    assert SavedLines(lines, info, cognito) == KeepUnmanaged(lines) + newLines;
  }

  /** The deployed-name append reads as the old lines, the comment and the new key line. */
  lemma DeployedNameLines(text: string, now: string, name: string)
    requires '\n' !in now && '\n' !in name
    ensures ReadLines(AppendDeployedName(text, now, name)) ==
      ReadLines(text + "\n") + [DeployedComment(now), KeyLine("DEPLOYED_AGENT_NAME=", name)]
  {
    DeployedCommentIsLine(now);
    AppendNamedLines(text, DeployedComment(now), "DEPLOYED_AGENT_NAME=", name);
  }

  lemma DeployedCommentIsLine(now: string)
    requires '\n' !in now
    ensures IsLine(DeployedComment(now))
  {
    var body := ConflictCommentText + " (" + now + ")";
    assert DeployedComment(now) == body + "\n";
    assert NoneOf(body, {'\n'}) by {
      ConflictCommentTextSingleLine();
      assert NoneOf(now, {'\n'});
      NoneOfConcat(ConflictCommentText, " (", {'\n'});
      NoneOfConcat(ConflictCommentText + " (", now, {'\n'});
      NoneOfConcat(ConflictCommentText + " (" + now, ")", {'\n'});
    }
    LineOf(body);
  }

  /** `DEPLOYED_AGENT_NAME=` is not an owned key, so a later rewrite keeps that line. */
  lemma SaveKeepsDeployedName(text: string, now: string, name: string, info: AgentInfo, cognito: Option<CognitoInfo>)
    requires '\n' !in now && '\n' !in name
    ensures KeyLine("DEPLOYED_AGENT_NAME=", name) in SavedLines(ReadLines(AppendDeployedName(text, now, name)), info, cognito)
  {
    var x := KeyLine("DEPLOYED_AGENT_NAME=", name);
    var lines := ReadLines(AppendDeployedName(text, now, name));
    DeployedNameLines(text, now, name);
    assert x == lines[|lines| - 1];
    assert !IsManaged(x) by {
      forall i | 0 <= i < |ManagedKeys|
        ensures !StartsWith(x, ManagedKeys[i])
      {
        assert x[0] == 'D';
        assert ManagedKeys[i][0] == 'A' || ManagedKeys[i][0] == 'C';
      }
    }
    KeepUnmanagedMembers(lines, x);
  }
}
