/** The agent endpoint URL: the normaliser `validate_endpoint_url` (identical in
    get_agent_info.py and test_deployment.py), the endpoint template of `find_agent_info`, and
    the hostname split of `interactive_mode` that reads the agent id and region back. */
module Endpoint {
  import opened Text
  import opened Outcomes

  /** The result of `validate_endpoint_url`: `(url, None)` or `(None, error)`. */
  datatype Validation = Accepted(url: string) | Rejected(error: string)

  const EmptyError := "URL cannot be empty"
  const FormatError := "Invalid URL format"
  /** `f"Invalid URL: {e}"` for the `ValueError` urlsplit raises on unbalanced brackets. */
  const BracketError := "Invalid URL: Invalid IPv6 URL"

  predicate HasWebScheme(s: string) {
    StartsWith(s, "http://") || StartsWith(s, "https://")
  }

  /** Both web schemes have `/` at index 6, so text without one there has no web scheme. */
  lemma NoWebScheme(s: string)
    requires |s| <= 6 || s[6] != '/'
    ensures !HasWebScheme(s)
  {
    assert "http://"[6] == '/' && "https://"[6] == '/';
    assert |s| < 7 || s[..7][6] == s[6];
    assert |s| < 8 || s[..8][6] == s[6];
  }

  /** Text given the default scheme is parsed after its eight characters. */
  lemma DefaultScheme(x: string)
    ensures HasWebScheme("https://" + x) && SchemeLength("https://" + x) == 8
    ensures ("https://" + x)[8..] == x
  {
    var w := "https://" + x;
    assert w[..8] == "https://";
    assert w[..7][4] == 's';
  }

  /** `url` with `https://` prepended unless it already starts with `http://` or `https://`. */
  function WithScheme(s: string): (w: string)
    ensures HasWebScheme(w)
  {
    if HasWebScheme(s) then s else "https://" + s
  }

  // ---------------------------------------------------------------------------------------
  // urllib.parse.urlparse, for a URL that starts with `http://` or `https://`

  /** urlsplit deletes every tab, carriage return and line feed before parsing. */
  function Sanitize(s: string): (r: string)
    ensures |r| <= |s| && NoneOf(r, {'\t', '\r', '\n'})
  {
    if s == [] then []
    else if s[0] in {'\t', '\r', '\n'} then Sanitize(s[1..])
    else [s[0]] + Sanitize(s[1..])
  }

  lemma {:induction false} SanitizeClean(s: string)
    requires NoneOf(s, {'\t', '\r', '\n'})
    ensures Sanitize(s) == s
  {
    if s != [] {
      SanitizeClean(s[1..]);
      assert [s[0]] + s[1..] == s;
    }
  }

  /** `_splitparams` for http(s): the path up to the first `;` after its last `/`. */
  function ParamsCut(p: string): (r: string)
    ensures |r| <= |p| && r == p[..|r|]
  {
    if '/' !in p then p[..FirstOf(p, {';'})]
    else
      var j := LastIndexOf(p, '/');
      p[..j + FirstOf(p[j..], {';'})]
  }

  lemma ParamsCutClean(p: string)
    requires ';' !in p
    ensures ParamsCut(p) == p
  {
    FirstOfNone(p, {';'});
    if '/' in p {
      var j := LastIndexOf(p, '/');
      FirstOfNone(p[j..], {';'});
    }
  }

  /** The parts of a parsed URL that the scripts read. */
  datatype Parsed = Parsed(netloc: string, path: string)

  /** After the `scheme://`: the network location runs to the first `/`, `?` or `#`; the
      path runs from there to the first `?` or `#`, minus any `;params`. */
  function SplitAfterScheme(rest: string): (p: Parsed)
    ensures |p.netloc| <= |rest| && p.netloc == rest[..|p.netloc|] && NoneOf(p.netloc, {'/', '?', '#'})
    ensures p.path != [] ==> p.path[0] == '/'
  {
    var n := FirstOf(rest, {'/', '?', '#'});
    var tail := rest[n..];
    var path := ParamsCut(tail[..FirstOf(tail, {'?', '#'})]);
    assert path != [] ==> path[0] == tail[0];
    Parsed(rest[..n], path)
  }

  function SchemeLength(w: string): nat
    requires HasWebScheme(w)
  {
    if StartsWith(w, "http://") then 7 else 8
  }

  /** `urlparse(w)` for `w` with a web scheme: the sanitised text after `scheme://`, split. */
  function ParseUrl(w: string): Parsed
    requires HasWebScheme(w)
  {
    SplitAfterScheme(Sanitize(w[SchemeLength(w)..]))
  }

  /** urlsplit raises `ValueError` when the network location has one bracket but not the other. */
  predicate UnbalancedBrackets(netloc: string) {
    ('[' in netloc) != (']' in netloc)
  }

  /** `validate_endpoint_url(url)`: empty input is refused; otherwise the input is trimmed,
      given `https://` if it has no web scheme, and normalised. */
  function ValidateEndpointUrl(url: string): Validation {
    if url == [] then Rejected(EmptyError)
    else NormalizeCompleted(WithScheme(Strip(url)))
  }

  /** The rest of `validate_endpoint_url` once `url` is trimmed and has a web scheme: parse,
      refuse a missing host, and make the path end in "invocations". */
  function NormalizeCompleted(w: string): Validation
    requires HasWebScheme(w)
  {
    var p := ParseUrl(w);
    if UnbalancedBrackets(p.netloc) then Rejected(BracketError)
    else if p.netloc == [] then Rejected(FormatError)
    else if EndsWith(p.path, "/invocations") then Accepted(w)
    else if p.path != [] && !EndsWith(p.path, "/") then Accepted(w + "/invocations")
    else Accepted(w + "invocations")
  }

  /** The parse of the trimmed, scheme-completed input. */
  function ParsedInput(url: string): Parsed {
    ParseUrl(WithScheme(Strip(url)))
  }

  lemma EmptyIsRejected()
    ensures ValidateEndpointUrl("") == Rejected(EmptyError)
  {
  }

  /** Whitespace-only input has no host: it is rejected with "Invalid URL format". */
  lemma BlankIsRejected(url: string)
    requires url != [] && forall i :: 0 <= i < |url| ==> IsSpace(url[i])
    ensures ValidateEndpointUrl(url) == Rejected(FormatError)
  {
    assert Strip(url) == [];
    assert WithScheme(Strip(url)) == "https://";
  }

  /** Rejection happens exactly for empty input, unbalanced brackets in the network location,
      or no network location, with those messages in that order of precedence. */
  lemma RejectedIff(url: string)
    ensures ValidateEndpointUrl(url).Rejected? <==>
      url == [] || UnbalancedBrackets(ParsedInput(url).netloc) || ParsedInput(url).netloc == []
    ensures ValidateEndpointUrl(url).Rejected? ==> ValidateEndpointUrl(url).error in [EmptyError, BracketError, FormatError]
  {
  }

  /** An accepted URL is the trimmed input, with `https://` when it had no web scheme, followed
      by nothing, "invocations" or "/invocations". */
  lemma AcceptedShape(url: string)
    requires ValidateEndpointUrl(url).Accepted?
    ensures var r := ValidateEndpointUrl(url).url;
      var w := WithScheme(Strip(url));
      HasWebScheme(r) && StartsWith(r, w) && r[|w|..] in ["", "invocations", "/invocations"]
      && (HasWebScheme(Strip(url)) ==> w == Strip(url))
      && (!HasWebScheme(Strip(url)) ==> w == "https://" + Strip(url))
  {
    var w := WithScheme(Strip(url));
    assert ValidateEndpointUrl(url) == NormalizeCompleted(w);
    var x := AcceptedSuffix(w);
    SchemeOfExtension(w, x);
    assert (w + x)[..|w|] == w && (w + x)[|w|..] == x;
  }

  /** What `NormalizeCompleted` appends to an accepted URL. */
  lemma AcceptedSuffix(w: string) returns (x: string)
    requires HasWebScheme(w) && NormalizeCompleted(w).Accepted?
    ensures x in ["", "invocations", "/invocations"] && NormalizeCompleted(w).url == w + x
  {
    var p := ParseUrl(w);
    if EndsWith(p.path, "/invocations") {
      x := "";
      assert w + x == w;
    } else if p.path != [] && !EndsWith(p.path, "/") {
      x := "/invocations";
    } else {
      x := "invocations";
    }
  }

  /** No query, fragment or `;params`, and none of the characters urlsplit deletes: the URLs
      the endpoint helper is meant for. */
  predicate Plain(s: string) {
    NoneOf(s, PlainExcluded)
  }

  const PlainExcluded: set<char> := {'?', '#', ';', '\t', '\r', '\n'}

  /** Without `?`, `#` or `;` the path is everything after the network location. */
  lemma SplitPlainJoin(rest: string)
    requires Plain(rest)
    ensures SplitAfterScheme(rest).path == rest[FirstOf(rest, {'/', '?', '#'})..]
    ensures SplitAfterScheme(rest).netloc == rest[..FirstOf(rest, {'/', '?', '#'})]
    ensures SplitAfterScheme(rest).netloc + SplitAfterScheme(rest).path == rest
  {
    var n := FirstOf(rest, {'/', '?', '#'});
    var tail := rest[n..];
    NoneOfSlice(rest, PlainExcluded, n, |rest|);
    FirstOfNone(tail, {'?', '#'});
    assert tail[..FirstOf(tail, {'?', '#'})] == tail;
    ParamsCutClean(tail);
    assert SplitAfterScheme(rest).path == tail;
    TakeDrop(rest, n);
  }

  /** Without `?` or `#` the network location ends at the first `/`. */
  lemma SplitPlainNetloc(rest: string)
    requires Plain(rest)
    ensures SplitAfterScheme(rest).netloc == rest[..FirstOf(rest, {'/'})]
    ensures FirstOf(rest, {'/'}) == FirstOf(rest, {'/', '?', '#'})
  {
    var n := FirstOf(rest, {'/', '?', '#'});
    assert NoneOf(rest[..n], {'/'}) by {
      forall k | 0 <= k < n
        ensures rest[..n][k] != '/'
      {
        assert rest[..n][k] !in {'/', '?', '#'};
      }
    }
    if n < |rest| {
      assert rest[n] in {'/', '?', '#'} && rest[n] !in {'?', '#'};
      assert rest[n] == '/';
    }
    FirstOfUnique(rest, {'/'}, n);
  }

  /** Without `?`, `#` or `;` the text after the scheme is network location + path, the
      network location ends at the first `/`, and there is a path exactly when there is a `/`. */
  lemma SplitPlain(rest: string)
    requires Plain(rest)
    ensures var p := SplitAfterScheme(rest);
      p.netloc + p.path == rest && p.netloc == rest[..FirstOf(rest, {'/'})]
      && (p.path == [] <==> '/' !in rest)
  {
    SplitPlainJoin(rest);
    SplitPlainNetloc(rest);
    if '/' in rest {
      FirstOfFound(rest, {'/'}, '/');
    } else {
      FirstOfNone(rest, {'/'});
    }
  }

  /** A plain URL parses as the text after its scheme, unchanged by sanitising. */
  lemma ParsePlain(w: string)
    requires HasWebScheme(w) && Plain(w)
    ensures Plain(w[SchemeLength(w)..]) && ParseUrl(w) == SplitAfterScheme(w[SchemeLength(w)..])
  {
    var sl := SchemeLength(w);
    NoneOfSlice(w, PlainExcluded, sl, |w|);
    SanitizeClean(w[sl..]);
  }

  /** For a plain URL the text after the scheme is network location + path, so the URL ends
      with its path. */
  lemma PlainParse(w: string)
    requires HasWebScheme(w) && Plain(w)
    ensures var p := ParseUrl(w);
      w[SchemeLength(w)..] == p.netloc + p.path && EndsWith(w, p.path)
      && (p.path == [] <==> '/' !in w[SchemeLength(w)..])
  {
    ParsePlain(w);
    SplitPlain(w[SchemeLength(w)..]);
    EndsWithTail(w, SchemeLength(w), ParseUrl(w).netloc, ParseUrl(w).path);
  }

  /** The fixed texts the normaliser adds are plain and hold no `/` or bracket beyond the
      leading slash. */
  lemma PlainLiterals()
    ensures Plain("invocations") && Plain("/invocations") && Plain("https://")
    ensures NoneOf("invocations", {'/', '[', ']'})
  {
  }

  lemma PlainConcat(a: string, b: string)
    requires Plain(a) && Plain(b)
    ensures Plain(a + b)
  {
    NoneOfConcat(a, b, PlainExcluded);
  }

  lemma SchemeOfExtension(w: string, x: string)
    requires HasWebScheme(w)
    ensures HasWebScheme(w + x) && SchemeLength(w + x) == SchemeLength(w)
    ensures (w + x)[SchemeLength(w)..] == w[SchemeLength(w)..] + x
  {
    assert (w + x)[..7] == w[..7];
    if |w| >= 8 {
      assert (w + x)[..8] == w[..8];
    }
  }

  /** Appending plain text after a path extends the path. */
  lemma SplitExtendsPath(rest: string, x: string)
    requires Plain(rest) && Plain(x) && '/' in rest
    ensures SplitAfterScheme(rest + x) == Parsed(SplitAfterScheme(rest).netloc, SplitAfterScheme(rest).path + x)
  {
    PlainConcat(rest, x);
    SplitPlainJoin(rest);
    SplitPlainJoin(rest + x);
    AppendAfterStop(rest, x, {'/', '?', '#'}, '/');
  }

  /** Text appended after the first stop character leaves everything before it alone. */
  lemma AppendAfterStop(a: string, b: string, stops: set<char>, c: char)
    requires c in a && c in stops
    ensures var n := FirstOf(a, stops);
      FirstOf(a + b, stops) == n && (a + b)[..n] == a[..n] && (a + b)[n..] == a[n..] + b
  {
    FirstOfFound(a, stops, c);
    FirstOfAppend(a, b, stops);
  }

  /** Appending plain, slash-free text to a network location without a path extends it. */
  lemma SplitExtendsHost(rest: string, x: string)
    requires Plain(rest) && Plain(x) && '/' !in rest && '/' !in x
    ensures SplitAfterScheme(rest + x) == Parsed(rest + x, [])
  {
    PlainConcat(rest, x);
    SplitPlain(rest + x);
    FirstOfNone(rest + x, {'/'});
  }

  /** Appending a plain suffix to a plain URL with a path extends the path. */
  lemma ParseExtendsPath(w: string, x: string)
    requires HasWebScheme(w) && Plain(w) && Plain(x) && ParseUrl(w).path != []
    ensures ParseUrl(w + x) == Parsed(ParseUrl(w).netloc, ParseUrl(w).path + x)
  {
    var sl := SchemeLength(w);
    SchemeOfExtension(w, x);
    PlainConcat(w, x);
    ParsePlain(w);
    ParsePlain(w + x);
    SplitPlain(w[sl..]);
    SplitExtendsPath(w[sl..], x);
  }

  /** Appending a plain suffix without `/` to a plain URL without a path extends the host. */
  lemma ParseExtendsHost(w: string, x: string)
    requires HasWebScheme(w) && Plain(w) && Plain(x) && '/' !in x && ParseUrl(w).path == []
    ensures ParseUrl(w + x) == Parsed(ParseUrl(w).netloc + x, [])
  {
    var sl := SchemeLength(w);
    SchemeOfExtension(w, x);
    PlainConcat(w, x);
    ParsePlain(w);
    ParsePlain(w + x);
    SplitPlain(w[sl..]);
    SplitExtendsHost(w[sl..], x);
  }

  /** A plain URL with a host and a path ending in "/invocations" is its own normal form. */
  lemma NormalFormAccepted(w: string)
    requires HasWebScheme(w) && Plain(w) && EndsWith(ParseUrl(w).path, "/invocations")
    requires ParseUrl(w).netloc != [] && !UnbalancedBrackets(ParseUrl(w).netloc)
    ensures ValidateEndpointUrl(w) == Accepted(w)
  {
    PlainParse(w);
    EndsWithTrans(w, ParseUrl(w).path, "/invocations");
    EndsWithTrans(w, "/invocations", "invocations");
    SchemedIsTrimmed(w);
  }

  /** A URL with a web scheme that ends in "invocations" is left alone by trimming and by
      the scheme default. */
  lemma SchemedIsTrimmed(w: string)
    requires HasWebScheme(w) && EndsWith(w, "invocations")
    ensures WithScheme(Strip(w)) == w
  {
    assert w[|w| - 1] == "invocations"[10] == 's';
    assert w[0] == 'h';
    StripNoop(w);
  }

  /** The trimmed, scheme-completed form of plain input is plain. */
  lemma PlainInput(url: string)
    requires Plain(url)
    ensures Plain(WithScheme(Strip(url)))
  {
    StripNoneOf(url, PlainExcluded);
    PlainLiterals();
    if !HasWebScheme(Strip(url)) {
      PlainConcat("https://", Strip(url));
    }
  }

  /** On plain input every accepted URL ends in "invocations". */
  lemma AcceptedEndsWithInvocations(url: string)
    requires Plain(url) && ValidateEndpointUrl(url).Accepted?
    ensures EndsWith(ValidateEndpointUrl(url).url, "invocations")
  {
    var w := WithScheme(Strip(url));
    PlainInput(url);
    var p := ParseUrl(w);
    if EndsWith(p.path, "/invocations") {
      PlainParse(w);
      EndsWithTrans(w, p.path, "/invocations");
      EndsWithTrans(w, "/invocations", "invocations");
    } else if p.path != [] && !EndsWith(p.path, "/") {
      EndsWithAppend(w, "/invocations");
      EndsWithTrans(w + "/invocations", "/invocations", "invocations");
    } else {
      EndsWithAppend(w, "invocations");
    }
  }

  lemma FragmentSplit(host: string, frag: string)
    requires BareHost(host)
    ensures SplitAfterScheme(host + "/invocations#" + frag) == Parsed(host, "/invocations")
  {
    var rest := host + "/invocations#" + frag;
    assert rest[..|host|] == host;
    assert NoneOf(host, {'/', '?', '#'});
    FirstOfUnique(rest, {'/', '?', '#'}, |host|);
    var tail := rest[|host|..];
    assert tail == "/invocations#" + frag;
    assert tail[..12] == "/invocations" && tail[12] == '#';
    PlainLiterals();
    FirstOfUnique(tail, {'?', '#'}, 12);
    ParamsCutClean("/invocations");
  }

  lemma FragmentParse(host: string, frag: string)
    requires BareHost(host) && NoneOf(frag, {'\t', '\r', '\n'})
    ensures HasWebScheme("https://" + host + "/invocations#" + frag)
    ensures ParseUrl("https://" + host + "/invocations#" + frag) == Parsed(host, "/invocations")
  {
    var rest := host + "/invocations#" + frag;
    DefaultScheme(rest);
    assert "https://" + rest == "https://" + host + "/invocations#" + frag;
    assert NoneOf("/invocations#", {'\t', '\r', '\n'});
    assert NoneOf(host, {'\t', '\r', '\n'});
    NoneOfConcat(host, "/invocations#", {'\t', '\r', '\n'});
    NoneOfConcat(host + "/invocations#", frag, {'\t', '\r', '\n'});
    SanitizeClean(rest);
    FragmentSplit(host, frag);
  }

  /** Without the restriction to plain input the property fails: a fragment after
      "/invocations" is kept, so the accepted URL ends with the fragment. */
  lemma FragmentKeptAfterInvocations(host: string, frag: string)
    requires BareHost(host) && NoneOf(frag, {'\t', '\r', '\n'}) && frag != [] && !IsSpace(frag[|frag| - 1])
    ensures var url := "https://" + host + "/invocations#" + frag;
      ValidateEndpointUrl(url) == Accepted(url) && EndsWith(url, frag)
  {
    var url := "https://" + host + "/invocations#" + frag;
    FragmentParse(host, frag);
    assert url[0] == 'h' && url[|url| - 1] == frag[|frag| - 1];
    StripNoop(url);
    assert EndsWith("/invocations", "/invocations");
    assert NoneOf(host, {'[', ']'});
    CompletedFixed(url);
    EndsWithAppend("https://" + host + "/invocations#", frag);
  }

  /** The path already ends in "/invocations" exactly when the URL is returned as trimmed
      (with its scheme completed). */
  lemma UnchangedIff(url: string)
    requires ValidateEndpointUrl(url).Accepted?
    ensures ValidateEndpointUrl(url).url == WithScheme(Strip(url)) <==>
      EndsWith(ParsedInput(url).path, "/invocations")
  {
  }

  /** A URL with a host and a path ending in "/invocations" is accepted as it is. */
  lemma CompletedFixed(w: string)
    requires HasWebScheme(w) && ParseUrl(w).netloc != [] && !UnbalancedBrackets(ParseUrl(w).netloc)
    requires EndsWith(ParseUrl(w).path, "/invocations")
    ensures NormalizeCompleted(w) == Accepted(w)
  {
  }

  /** A path not ending in `/` gains "/invocations", after which it is left alone. */
  lemma SlashExtensionIsFixed(w: string)
    requires HasWebScheme(w) && Plain(w) && ParseUrl(w).path != []
    requires ParseUrl(w).netloc != [] && !UnbalancedBrackets(ParseUrl(w).netloc)
    ensures HasWebScheme(w + "/invocations")
    ensures NormalizeCompleted(w + "/invocations") == Accepted(w + "/invocations")
  {
    PlainLiterals();
    ParseExtendsPath(w, "/invocations");
    SchemeOfExtension(w, "/invocations");
    EndsWithAppend(ParseUrl(w).path, "/invocations");
    CompletedFixed(w + "/invocations");
  }

  /** A path ending in `/` gains "invocations", after which it is left alone. */
  lemma BareExtensionIsFixed(w: string)
    requires HasWebScheme(w) && Plain(w) && ParseUrl(w).path != [] && EndsWith(ParseUrl(w).path, "/")
    requires ParseUrl(w).netloc != [] && !UnbalancedBrackets(ParseUrl(w).netloc)
    ensures HasWebScheme(w + "invocations")
    ensures NormalizeCompleted(w + "invocations") == Accepted(w + "invocations")
  {
    PlainLiterals();
    ParseExtendsPath(w, "invocations");
    SchemeOfExtension(w, "invocations");
    SlashGainsInvocations(ParseUrl(w).path);
    CompletedFixed(w + "invocations");
  }

  lemma SlashGainsInvocations(path: string)
    requires EndsWith(path, "/")
    ensures EndsWith(path + "invocations", "/invocations")
  {
    EndsWithGlue(path, "/", "invocations");
    assert "/" + "invocations" == "/invocations";
  }

  /** Bracket balance ignores text without brackets. */
  lemma BracketsUnchanged(netloc: string, x: string)
    requires NoneOf(x, {'[', ']'})
    ensures UnbalancedBrackets(netloc + x) == UnbalancedBrackets(netloc)
  {
    assert '[' in netloc + x <==> '[' in netloc;
    assert ']' in netloc + x <==> ']' in netloc;
  }

  /** A bare host glued to "invocations" is still a bare host, which gains another. */
  lemma HostExtensionGrows(w: string)
    requires HasWebScheme(w) && Plain(w) && ParseUrl(w).path == []
    requires ParseUrl(w).netloc != [] && !UnbalancedBrackets(ParseUrl(w).netloc)
    ensures HasWebScheme(w + "invocations")
    ensures NormalizeCompleted(w + "invocations") == Accepted(w + "invocations" + "invocations")
  {
    PlainLiterals();
    ParseExtendsHost(w, "invocations");
    SchemeOfExtension(w, "invocations");
    BracketsUnchanged(ParseUrl(w).netloc, "invocations");
  }

  /** Normalising a normalised plain URL again changes it exactly when it had no path. */
  lemma NormalizeTwice(w: string)
    requires HasWebScheme(w) && Plain(w) && NormalizeCompleted(w).Accepted?
    ensures var r := NormalizeCompleted(w).url;
      HasWebScheme(r)
      && (NormalizeCompleted(r) == Accepted(r) <==> ParseUrl(w).path != [])
      && (ParseUrl(w).path == [] ==> NormalizeCompleted(r) == Accepted(r + "invocations"))
  {
    var p := ParseUrl(w);
    if EndsWith(p.path, "/invocations") {
    } else if p.path != [] && !EndsWith(p.path, "/") {
      SlashExtensionIsFixed(w);
    } else if p.path != [] {
      BareExtensionIsFixed(w);
    } else {
      HostExtensionGrows(w);
    }
  }

  /** On plain input, normalising twice equals normalising once exactly when the input has a
      path; a bare host gains a second "invocations" instead. */
  lemma IdempotentIffPath(url: string)
    requires Plain(url) && ValidateEndpointUrl(url).Accepted?
    ensures var r := ValidateEndpointUrl(url).url;
      (ValidateEndpointUrl(r) == Accepted(r) <==> ParsedInput(url).path != [])
      && (ParsedInput(url).path == [] ==> ValidateEndpointUrl(r) == Accepted(r + "invocations"))
  {
    var w := WithScheme(Strip(url));
    PlainInput(url);
    AcceptedEndsWithInvocations(url);
    NormalizeTwice(w);
    SchemedIsTrimmed(ValidateEndpointUrl(url).url);
  }

  /** Inputs with the same trimmed, scheme-completed form normalise alike. */
  lemma SameCompletedInput(a: string, b: string)
    requires a != [] && b != [] && WithScheme(Strip(a)) == WithScheme(Strip(b))
    ensures ValidateEndpointUrl(a) == ValidateEndpointUrl(b)
  {
  }

  /** A bare host is a plain text without `/`, brackets, or surrounding whitespace. */
  predicate BareHost(host: string) {
    host != [] && Plain(host) && NoneOf(host, {'/', '[', ']'}) && !IsSpace(host[0]) && !IsSpace(host[|host| - 1])
  }

  lemma BareHostParse(host: string)
    requires BareHost(host)
    ensures HasWebScheme("https://" + host) && ParseUrl("https://" + host) == Parsed(host, [])
  {
    var w := "https://" + host;
    PlainLiterals();
    PlainConcat("https://", host);
    DefaultScheme(host);
    ParsePlain(w);
    SplitPlain(host);
    FirstOfNone(host, {'/'});
  }

  lemma BareHostCompleted(host: string)
    requires BareHost(host)
    ensures WithScheme(Strip(host)) == "https://" + host
    ensures WithScheme(Strip("https://" + host)) == "https://" + host
  {
    StripNoop(host);
    var w := "https://" + host;
    assert w[0] == 'h' && w[|w| - 1] == host[|host| - 1];
    StripNoop(w);
    assert |host| <= 6 || host[6] != '/';
    NoWebScheme(host);
  }

  /** A bare host normalises to the host with "invocations" glued on, without a slash, whether
      or not the scheme was given. */
  lemma BareHostQuirk(host: string)
    requires BareHost(host)
    ensures ValidateEndpointUrl(host) == Accepted("https://" + host + "invocations")
    ensures ValidateEndpointUrl("https://" + host) == Accepted("https://" + host + "invocations")
  {
    BareHostCompleted(host);
    BareHostParse(host);
    SameCompletedInput(host, "https://" + host);
  }

  /** A bare host glued to "invocations" is again a bare host. */
  lemma BareHostGrows(host: string)
    requires BareHost(host)
    ensures BareHost(host + "invocations")
  {
    PlainLiterals();
    PlainConcat(host, "invocations");
    NoneOfConcat(host, "invocations", {'/', '[', ']'});
  }

  /** The help text promises that a bare host gains "/invocations"; the code glues on
      "invocations" without the slash, and every further pass glues on another. */
  lemma BareHostNotIdempotent(host: string)
    requires BareHost(host)
    ensures ValidateEndpointUrl("https://" + host + "invocations") ==
      Accepted("https://" + host + "invocations" + "invocations")
  {
    BareHostGrows(host);
    BareHostQuirk(host + "invocations");
    assert "https://" + (host + "invocations") == "https://" + host + "invocations";
  }

  // ---------------------------------------------------------------------------------------
  // Endpoint template and hostname split

  /** `f"https://{agent_id}.bedrock-agentcore.{region}.amazonaws.com/invocations"` */
  function EndpointFor(agentId: string, region: string): string {
    "https://" + agentId + ".bedrock-agentcore." + region + ".amazonaws.com/invocations"
  }

  /** The agent record `find_agent_info` and `interactive_mode` build. */
  datatype AgentInfo = AgentInfo(agentId: string, agentName: string, endpointUrl: string, status: Option<string>, region: string)

  /** `urlparse(...).hostname`: after the last `@`; inside `[...]` or up to the first `:`;
      lower-cased up to any `%` zone; None when empty. */
  function HostnameOf(netloc: string): Option<string> {
    var info := if '@' in netloc then netloc[LastIndexOf(netloc, '@') + 1..] else netloc;
    var host :=
      if '[' in info then
        var b := info[FirstOf(info, {'['}) + 1..];
        b[..FirstOf(b, {']'})]
      else info[..FirstOf(info, {':'})];
    if host == [] then None
    else
      var k := FirstOf(host, {'%'});
      Some(Lower(host[..k]) + host[k..])
  }

  /** The agent record `interactive_mode` reads off an entered endpoint: the first and third
      dot-separated labels of the hostname, when there are at least three labels and the
      second contains "bedrock-agentcore"; a missing hostname raises, which is swallowed. */
  function AgentInfoFromEndpoint(url: string): Option<AgentInfo>
    requires HasWebScheme(url)
  {
    match HostnameOf(ParseUrl(url).netloc)
    case None => None
    case Some(h) =>
      var parts := Split(h, '.');
      if |parts| >= 3 && Contains(parts[1], "bedrock-agentcore") then
        Some(AgentInfo(parts[0], "sbom-security-agent", url, Some("Unknown"), parts[2]))
      else None
  }

  /** Characters a hostname must avoid for the template to be read back unchanged. */
  const HostExcluded: set<char> := {'/', '?', '#', ';', '\t', '\r', '\n', '[', ']', '@', ':', '%'}

  /** Characters an agent id or region must avoid: the host excluded ones and the dot. */
  const Separators: set<char> := HostExcluded + {'.'}

  /** The host of the endpoint template. */
  function TemplateHost(agentId: string, region: string): string {
    agentId + ".bedrock-agentcore." + region + ".amazonaws.com"
  }

  lemma TemplateLiterals()
    ensures NoneOf(".bedrock-agentcore.", HostExcluded) && NoneOf(".amazonaws.com", HostExcluded)
    ensures Plain("/invocations") && "/invocations"[0] == '/'
  {
    PlainLiterals();
  }

  lemma TemplateHostClean(agentId: string, region: string)
    requires NoneOf(agentId, Separators) && NoneOf(region, Separators)
    ensures NoneOf(TemplateHost(agentId, region), HostExcluded)
  {
    TemplateLiterals();
    NoneOfConcat(agentId, ".bedrock-agentcore.", HostExcluded);
    NoneOfConcat(agentId + ".bedrock-agentcore.", region, HostExcluded);
    NoneOfConcat(agentId + ".bedrock-agentcore." + region, ".amazonaws.com", HostExcluded);
  }

  /** A URL built as `https://` + host + path, with a slash-free plain host and a plain path
      starting with `/`, parses back into that host and path. */
  lemma HostPathParse(host: string, path: string)
    requires NoneOf(host, HostExcluded) && Plain(path) && path != [] && path[0] == '/'
    ensures HasWebScheme("https://" + host + path)
    ensures ParseUrl("https://" + host + path) == Parsed(host, path)
  {
    var rest := host + path;
    DefaultScheme(rest);
    assert "https://" + rest == "https://" + host + path;
    assert Plain(host);
    PlainLiterals();
    PlainConcat(host, path);
    PlainConcat("https://", rest);
    ParsePlain("https://" + rest);
    SplitPlain(rest);
    assert rest[..|host|] == host;
    assert NoneOf(host, {'/'});
    FirstOfUnique(rest, {'/'}, |host|);
    assert rest[|host|..] == path;
  }

  /** A host without `@`, brackets, `:` or `%` is its own hostname, lower-cased. */
  lemma HostnameOfPlainHost(host: string)
    requires host != [] && NoneOf(host, HostExcluded)
    ensures HostnameOf(host) == Some(Lower(host))
  {
    assert NoneOf(host, {':'}) && NoneOf(host, {'%'});
    FirstOfNone(host, {':'});
    FirstOfNone(host, {'%'});
    assert '@' !in host && '[' !in host;
    assert host[..|host|] == host && host[|host|..] == [];
    assert Lower(host) + [] == Lower(host);
  }

  lemma LowerTemplateHost(agentId: string, region: string)
    ensures Lower(TemplateHost(agentId, region)) == TemplateHost(Lower(agentId), Lower(region))
  {
    LowerConcat(agentId, ".bedrock-agentcore.");
    LowerConcat(agentId + ".bedrock-agentcore.", region);
    LowerConcat(agentId + ".bedrock-agentcore." + region, ".amazonaws.com");
    assert Lower(".bedrock-agentcore.") == ".bedrock-agentcore.";
    assert Lower(".amazonaws.com") == ".amazonaws.com";
  }

  /** Three dot-free labels followed by more text split into those labels first. */
  lemma ThreeLabels(a: string, b: string, c: string, rest: string)
    requires '.' !in a && '.' !in b && '.' !in c
    ensures var parts := Split(a + ['.'] + (b + ['.'] + (c + ['.'] + rest)), '.');
      |parts| >= 3 && parts[0] == a && parts[1] == b && parts[2] == c
  {
    SplitHead(a, b + ['.'] + (c + ['.'] + rest), '.');
    SplitHead(b, c + ['.'] + rest, '.');
    SplitHead(c, rest, '.');
  }

  lemma TemplateHostShape(id: string, rg: string)
    ensures TemplateHost(id, rg) == id + ['.'] + ("bedrock-agentcore" + ['.'] + (rg + ['.'] + "amazonaws.com"))
  {
  }

  /** The template host splits on dots into the agent id, the service label and the region. */
  lemma TemplateHostSplit(id: string, rg: string)
    requires '.' !in id && '.' !in rg
    ensures var parts := Split(TemplateHost(id, rg), '.');
      |parts| >= 3 && parts[0] == id && parts[1] == "bedrock-agentcore" && parts[2] == rg
  {
    TemplateHostShape(id, rg);
    assert '.' !in "bedrock-agentcore";
    ThreeLabels(id, "bedrock-agentcore", rg, "amazonaws.com");
  }

  /** The endpoint of an agent parses into the template host and the `/invocations` path. */
  lemma EndpointParse(agentId: string, region: string)
    requires NoneOf(agentId, Separators) && NoneOf(region, Separators)
    ensures HasWebScheme(EndpointFor(agentId, region))
    ensures ParseUrl(EndpointFor(agentId, region)) == Parsed(TemplateHost(agentId, region), "/invocations")
    ensures !UnbalancedBrackets(TemplateHost(agentId, region)) && TemplateHost(agentId, region) != []
  {
    var host := TemplateHost(agentId, region);
    EndpointSplits(agentId, region);
    TemplateHostClean(agentId, region);
    TemplateLiterals();
    HostPathParse(host, "/invocations");
    TemplateHostNonEmpty(agentId, region);
  }

  lemma EndpointSplits(agentId: string, region: string)
    ensures EndpointFor(agentId, region) == "https://" + TemplateHost(agentId, region) + "/invocations"
  {
  }

  lemma TemplateHostNonEmpty(agentId: string, region: string)
    requires NoneOf(TemplateHost(agentId, region), HostExcluded)
    ensures !UnbalancedBrackets(TemplateHost(agentId, region)) && TemplateHost(agentId, region) != []
  {
    var host := TemplateHost(agentId, region);
    assert host[|host| - 1] == 'm';
  }

  /** A URL with a scheme, a host and the `/invocations` path is accepted unchanged. */
  lemma InvocationsUrlAccepted(url: string)
    requires HasWebScheme(url) && EndsWith(url, "/invocations")
    requires ParseUrl(url).netloc != [] && !UnbalancedBrackets(ParseUrl(url).netloc)
    requires ParseUrl(url).path == "/invocations"
    ensures ValidateEndpointUrl(url) == Accepted(url)
  {
    assert EndsWith("/invocations", "/invocations");
    CompletedFixed(url);
    assert EndsWith("/invocations", "invocations");
    EndsWithTrans(url, "/invocations", "invocations");
    SchemedIsTrimmed(url);
  }

  lemma EndpointEndsWithInvocations(agentId: string, region: string)
    ensures EndsWith(EndpointFor(agentId, region), "/invocations")
  {
    var host := TemplateHost(agentId, region);
    assert EndpointFor(agentId, region) == "https://" + host + "/invocations";
    EndsWithAppend("https://" + host, "/invocations");
  }

  /** The normaliser accepts the endpoint of an agent unchanged. */
  lemma EndpointAccepted(agentId: string, region: string)
    requires NoneOf(agentId, Separators) && NoneOf(region, Separators)
    ensures ValidateEndpointUrl(EndpointFor(agentId, region)) == Accepted(EndpointFor(agentId, region))
  {
    EndpointParse(agentId, region);
    EndpointEndsWithInvocations(agentId, region);
    InvocationsUrlAccepted(EndpointFor(agentId, region));
  }

  /** The hostname of the endpoint of an agent is the lower-cased template host. */
  lemma EndpointHostname(agentId: string, region: string)
    requires NoneOf(agentId, Separators) && NoneOf(region, Separators)
    ensures HasWebScheme(EndpointFor(agentId, region))
    ensures HostnameOf(ParseUrl(EndpointFor(agentId, region)).netloc) ==
      Some(TemplateHost(Lower(agentId), Lower(region)))
  {
    EndpointParse(agentId, region);
    TemplateHostClean(agentId, region);
    HostnameOfPlainHost(TemplateHost(agentId, region));
    LowerTemplateHost(agentId, region);
  }

  /** The template and the hostname split are inverse: the endpoint of an agent is accepted
      unchanged by the normaliser and yields that agent's id and region (lower-cased). */
  lemma EndpointRoundTrip(agentId: string, region: string)
    requires NoneOf(agentId, Separators) && NoneOf(region, Separators)
    ensures ValidateEndpointUrl(EndpointFor(agentId, region)) == Accepted(EndpointFor(agentId, region))
    ensures HasWebScheme(EndpointFor(agentId, region))
    ensures AgentInfoFromEndpoint(EndpointFor(agentId, region)) ==
      Some(AgentInfo(Lower(agentId), "sbom-security-agent", EndpointFor(agentId, region), Some("Unknown"), Lower(region)))
  {
    EndpointAccepted(agentId, region);
    EndpointHostname(agentId, region);
    assert '.' !in agentId && '.' !in region;
    LowerKeeps(agentId, '.');
    LowerKeeps(region, '.');
    TemplateHostSplit(Lower(agentId), Lower(region));
    ContainsAt("bedrock-agentcore", "bedrock-agentcore", 0);
  }
}
