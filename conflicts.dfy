/** The error-message tests the deployment scripts use to tell a naming conflict from any
    other failure. Each test lower-cases `str(e)` and looks for substrings. */
module Conflicts {
  import opened Text

  /** enhanced_deployment.py's test of a launch error. */
  predicate EnhancedConflict(message: string) {
    var m := Lower(message);
    Contains(m, "already exists") || Contains(m, "conflict") || Contains(m, "duplicate")
    || Contains(m, "resourceconflictexception")
  }

  /** simple_enhanced_deployment.py's more permissive test of a launch error. */
  predicate SimpleConflict(message: string) {
    var m := Lower(message);
    Contains(m, "already exists") || Contains(m, "conflict") || Contains(m, "duplicate")
    || Contains(m, "resourceconflictexception") || Contains(m, "alreadyexists") || Contains(m, "exists")
  }

  /** working_deployment.py's test of a launch error, which only changes the advice printed. */
  predicate WorkingConflict(message: string) {
    var m := Lower(message);
    Contains(m, "already exists") || Contains(m, "conflict") || Contains(m, "duplicate")
  }

  /** The test of a failed provider creation in enhanced_deployment.py and
      simple_enhanced_deployment.py. */
  predicate ProviderAlreadyExists(message: string) {
    Contains(Lower(message), "already exists")
  }

  /** deployment_config.py's test of a failed provider creation, which also accepts
      "duplicate". */
  predicate ProviderExistsOrDuplicate(message: string) {
    var m := Lower(message);
    Contains(m, "already exists") || Contains(m, "duplicate")
  }

  lemma Subwords()
    ensures Contains("already exists", "exists")
    ensures Contains("alreadyexists", "exists")
    ensures Contains("resourceconflictexception", "conflict")
  {
    assert OccursAt("already exists", "exists", 8);
    ContainsAt("already exists", "exists", 8);
    assert OccursAt("alreadyexists", "exists", 7);
    ContainsAt("alreadyexists", "exists", 7);
    assert OccursAt("resourceconflictexception", "conflict", 8);
    ContainsAt("resourceconflictexception", "conflict", 8);
  }

  /** The six substrings of simple_enhanced_deployment.py reduce to three: "exists" covers
      "already exists" and "alreadyexists", and "conflict" covers
      "resourceconflictexception". */
  lemma SimpleConflictIff(message: string)
    ensures SimpleConflict(message) <==>
      var m := Lower(message); Contains(m, "exists") || Contains(m, "conflict") || Contains(m, "duplicate")
  {
    var m := Lower(message);
    Subwords();
    if Contains(m, "already exists") {
      ContainsTransitive(m, "already exists", "exists");
    }
    if Contains(m, "alreadyexists") {
      ContainsTransitive(m, "alreadyexists", "exists");
    }
    if Contains(m, "resourceconflictexception") {
      ContainsTransitive(m, "resourceconflictexception", "conflict");
    }
  }

  /** The fourth substring of enhanced_deployment.py adds nothing: its test accepts the same
      messages as working_deployment.py's. */
  lemma EnhancedIsWorking(message: string)
    ensures EnhancedConflict(message) <==> WorkingConflict(message)
  {
    var m := Lower(message);
    Subwords();
    if Contains(m, "resourceconflictexception") {
      ContainsTransitive(m, "resourceconflictexception", "conflict");
    }
  }

  /** A character of an occurring substring is a character of the string. */
  lemma ContainsChar(s: string, sub: string, c: char)
    requires Contains(s, sub) && c in sub
    ensures c in s
  {
    ContainsIff(s, sub);
    var i :| OccursAt(s, sub, i);
    var k :| 0 <= k < |sub| && sub[k] == c;
    assert s[i..i + |sub|][k] == s[i + k];
  }

  /** simple_enhanced_deployment.py accepts every message enhanced_deployment.py accepts,
      and more: "resource exists" is a conflict only for the former. */
  lemma SimpleIsMorePermissive(message: string)
    ensures EnhancedConflict(message) ==> SimpleConflict(message)
    ensures SimpleConflict("resource exists") && !EnhancedConflict("resource exists")
  {
    var w := "resource exists";
    var m := Lower(w);
    assert m == w by {
      forall i | 0 <= i < |w|
        ensures m[i] == w[i]
      {
        assert !('A' <= w[i] <= 'Z');
      }
    }
    assert OccursAt(m, "exists", 9);
    ContainsAt(m, "exists", 9);
    assert 'f' !in m && 'a' !in m && 'd' !in m;
    if Contains(m, "already exists") { ContainsChar(m, "already exists", 'a'); }
    if Contains(m, "conflict") { ContainsChar(m, "conflict", 'f'); }
    if Contains(m, "duplicate") { ContainsChar(m, "duplicate", 'd'); }
    if Contains(m, "resourceconflictexception") { ContainsChar(m, "resourceconflictexception", 'f'); }
  }

  /** deployment_config.py's provider test is strictly more permissive than the other two
      scripts': a "duplicate provider" error counts as success only there. */
  lemma ConfigProviderTestWider(message: string)
    ensures ProviderAlreadyExists(message) ==> ProviderExistsOrDuplicate(message)
    ensures ProviderExistsOrDuplicate("duplicate provider") && !ProviderAlreadyExists("duplicate provider")
  {
    var w := "duplicate provider";
    var m := Lower(w);
    assert m == w by {
      forall i | 0 <= i < |w|
        ensures m[i] == w[i]
      {
        assert !('A' <= w[i] <= 'Z');
      }
    }
    assert OccursAt(m, "duplicate", 0);
    ContainsAt(m, "duplicate", 0);
    assert 'y' !in m;
    if Contains(m, "already exists") { ContainsChar(m, "already exists", 'y'); }
  }
}
