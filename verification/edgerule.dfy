/**
 * Model of cmd/hop/edgerule.go: the analysis passes of `hop check` over
 * the edge rules of a pull zone that were already fetched. Network probes,
 * URL parsing and regular expressions are inputs (functions the passes
 * consult), so every pass is a deterministic function of its arguments.
 */
module EdgeRules {
  import opened Wrappers
  import opened Text
  import Bunny

  // ---------------------------------------------------------------------
  // Data model
  // ---------------------------------------------------------------------

  datatype Trigger = Trigger(Type: int, PatternMatches: seq<string>, PatternMatchingType: int, Parameter1: string)

  /**
   * An edge rule as sent (EdgeRule) and as listed (EdgeRuleResponse); the two
   * Go structs have the same fields and differ only in JSON tags.
   * ActionType 1 is a redirect: ActionParameter1 is the destination and
   * ActionParameter2 the status code.
   */
  datatype EdgeRule = EdgeRule(
    Guid: string, ActionType: int, ActionParameter1: string, ActionParameter2: string,
    Triggers: seq<Trigger>, TriggerMatchingType: int, Description: string, Enabled: bool)

  datatype Severity = Info | Warning | Error | Critical

  /** The `Details` map of an issue: absent, or the keys each kind of issue sets. */
  datatype Details =
    | NoDetails
    | ConflictCount(count: int)
    | ExternalHost(host: string)
    | LoopURL(url: string)
    | HostnameDetail(hostname: string)
    | RecordDetail(hostname: string, recordType: string, recordValue: string)

  datatype CheckIssue = CheckIssue(Type: string, Severity: Severity, Message: string, Rule: Option<EdgeRule>, Details: Details)

  /** Source path to destination, and source path to the rule that set it. */
  datatype RedirectMap = RedirectMap(SourceToDestination: map<string, string>, Rules: map<string, EdgeRule>)

  const RedirectAction: int := 1

  // ---------------------------------------------------------------------
  // Sources and normalisation
  // ---------------------------------------------------------------------

  /** The first pattern of the first trigger, or "" when there is none. */
  function ExtractSourceURL(rule: EdgeRule): (source: string)
    ensures |rule.Triggers| == 0 ==> source == ""
    ensures |rule.Triggers| > 0 && |rule.Triggers[0].PatternMatches| == 0 ==> source == ""
    ensures |rule.Triggers| > 0 && |rule.Triggers[0].PatternMatches| > 0 ==> source == rule.Triggers[0].PatternMatches[0]
  {
    if |rule.Triggers| > 0 && |rule.Triggers[0].PatternMatches| > 0 then rule.Triggers[0].PatternMatches[0] else ""
  }

  /** Lower-cases a URL and removes one trailing "/" unless the result is "/" itself. */
  function NormalizeURL(url: string): (r: string)
    ensures var lower := ToLower(url);
      if HasSuffix(lower, "/") && lower != "/" then lower == r + "/" else r == lower
    ensures ToLower(r) == r
  {
    var lower := ToLower(url);
    if HasSuffix(lower, "/") && lower != "/" then TrimSuffix(lower, "/") else lower
  }

  /**
   * Normalisation is a fixed point exactly on lower-case URLs without a
   * removable trailing slash; a second pass removes a second slash, so
   * "a//" becomes "a/" and then "a".
   */
  lemma NormalizeURLFixedPoint(url: string)
    ensures NormalizeURL(url) == url <==> ToLower(url) == url && !(HasSuffix(url, "/") && url != "/")
  {
    var lower := ToLower(url);
    if HasSuffix(lower, "/") && lower != "/" {
      assert |NormalizeURL(url)| < |url|;
    }
  }

  lemma NormalizeURLNotIdempotent()
    ensures NormalizeURL("a//") == "a/"
    ensures NormalizeURL(NormalizeURL("a//")) == "a"
    ensures NormalizeURL("/") == "/" && NormalizeURL("") == ""
  {
    LowerCaseFixed("a//");
    LowerCaseFixed("a/");
    LowerCaseFixed("a");
    LowerCaseFixed("/");
    assert HasSuffix("a//", "/") && "a//" == "a/" + "/";
    assert NormalizeURL("a//") == "a/";
    assert HasSuffix("a/", "/") && "a/" == "a" + "/";
    assert NormalizeURL("a/") == "a";
  }

  /** Text without upper-case letters is its own lower-case form. */
  lemma LowerCaseFixed(s: string)
    requires forall i :: 0 <= i < |s| ==> !('A' <= s[i] <= 'Z')
    ensures ToLower(s) == s
  {
  }

  // ---------------------------------------------------------------------
  // buildRedirectMap
  // ---------------------------------------------------------------------

  /** A rule that takes part in the redirect map: a redirect with a destination and a source. */
  predicate MapsSource(rule: EdgeRule, source: string)
  {
    rule.ActionType == RedirectAction && rule.ActionParameter1 != "" && source != "" && ExtractSourceURL(rule) == source
  }

  /** The maps after the rules are applied in order; a later rule for the same source replaces an earlier one. */
  function RedirectMapOf(rules: seq<EdgeRule>): RedirectMap
    decreases |rules|
  {
    if rules == [] then RedirectMap(map[], map[])
    else
      var rm := RedirectMapOf(rules[..|rules| - 1]);
      var rule := rules[|rules| - 1];
      var source := ExtractSourceURL(rule);
      if MapsSource(rule, source) then
        RedirectMap(rm.SourceToDestination[source := rule.ActionParameter1], rm.Rules[source := rule])
      else rm
  }

  /** Both maps have the same keys: exactly the sources of redirect rules with a destination. */
  lemma {:induction false} RedirectMapKeys(rules: seq<EdgeRule>)
    ensures var rm := RedirectMapOf(rules);
      && rm.SourceToDestination.Keys == rm.Rules.Keys
      && (forall s :: s in rm.Rules <==> exists i :: 0 <= i < |rules| && MapsSource(rules[i], s))
    decreases |rules|
  {
    if rules != [] {
      var n := |rules| - 1;
      var prefix := rules[..n];
      RedirectMapKeys(prefix);
      var rm, rm' := RedirectMapOf(prefix), RedirectMapOf(rules);
      var source := ExtractSourceURL(rules[n]);
      assert rm'.Rules.Keys == if MapsSource(rules[n], source) then rm.Rules.Keys + {source} else rm.Rules.Keys;
      forall s
        ensures s in rm'.Rules <==> exists i :: 0 <= i < |rules| && MapsSource(rules[i], s)
      {
        if exists i :: 0 <= i < |rules| && MapsSource(rules[i], s) {
          var i :| 0 <= i < |rules| && MapsSource(rules[i], s);
          if i < n {
            assert MapsSource(prefix[i], s);
          }
        }
        if exists i :: 0 <= i < n && MapsSource(prefix[i], s) {
          var i :| 0 <= i < n && MapsSource(prefix[i], s);
          assert MapsSource(rules[i], s);
        }
      }
    }
  }

  /** Each source maps to the last rule for it and to that rule's destination. */
  lemma {:induction false} RedirectMapLastWins(rules: seq<EdgeRule>)
    ensures forall s :: s in RedirectMapOf(rules).Rules && s in RedirectMapOf(rules).SourceToDestination ==>
              LastMapping(rules, s, RedirectMapOf(rules).Rules[s], RedirectMapOf(rules).SourceToDestination[s])
    decreases |rules|
  {
    if rules != [] {
      var n := |rules| - 1;
      var prefix := rules[..n];
      RedirectMapLastWins(prefix);
      var rm, rm' := RedirectMapOf(prefix), RedirectMapOf(rules);
      forall s | s in rm'.Rules && s in rm'.SourceToDestination
        ensures LastMapping(rules, s, rm'.Rules[s], rm'.SourceToDestination[s])
      {
        if !MapsSource(rules[n], s) {
          assert s in rm.Rules && s in rm.SourceToDestination;
          assert rm'.Rules[s] == rm.Rules[s] && rm'.SourceToDestination[s] == rm.SourceToDestination[s];
          assert LastMapping(prefix, s, rm.Rules[s], rm.SourceToDestination[s]);
          var i :| 0 <= i < n && MapsSource(prefix[i], s) && rm.Rules[s] == prefix[i] &&
                   rm.SourceToDestination[s] == prefix[i].ActionParameter1 &&
                   (forall j :: i < j < n ==> !MapsSource(prefix[j], s));
          assert forall j :: i < j < |rules| ==> !MapsSource(rules[j], s) by {
            forall j | i < j < |rules| ensures !MapsSource(rules[j], s) {
              if j < n { assert rules[j] == prefix[j]; }
            }
          }
        }
      }
    }
  }

  /** Rule `i` is the last rule mapping `s`, and supplies the rule and the destination. */
  ghost predicate LastMapping(rules: seq<EdgeRule>, s: string, rule: EdgeRule, destination: string)
  {
    exists i :: 0 <= i < |rules| && MapsSource(rules[i], s) && rule == rules[i] && destination == rules[i].ActionParameter1 &&
                (forall j :: i < j < |rules| ==> !MapsSource(rules[j], s))
  }

  /** buildRedirectMap: fills both maps in one pass over the rules. */
  method BuildRedirectMap(rules: seq<EdgeRule>) returns (rm: RedirectMap)
    ensures rm == RedirectMapOf(rules)
  {
    var sourceToDestination: map<string, string> := map[];
    var ruleOf: map<string, EdgeRule> := map[];
    for i := 0 to |rules|
      invariant RedirectMap(sourceToDestination, ruleOf) == RedirectMapOf(rules[..i])
    {
      assert rules[..i + 1][..i] == rules[..i];
      var rule := rules[i];
      if rule.ActionType == RedirectAction && rule.ActionParameter1 != "" {
        var source := ExtractSourceURL(rule);
        if source != "" {
          sourceToDestination := sourceToDestination[source := rule.ActionParameter1];
          ruleOf := ruleOf[source := rule];
        }
      }
    }
    assert rules[..|rules|] == rules;
    return RedirectMap(sourceToDestination, ruleOf);
  }

  // ---------------------------------------------------------------------
  // checkBasicRedirectIssues
  // ---------------------------------------------------------------------

  /**
   * The basic issues of one rule. A "301" code is a warning, a "302" without
   * destination an error, a destination with no code an error and a
   * destination with any other code a warning; other actions are ignored.
   */
  function BasicIssuesFor(rule: EdgeRule): (r: seq<CheckIssue>)
    ensures |r| <= 1
    ensures rule.ActionType != RedirectAction ==> r == []
    ensures forall issue :: issue in r ==> issue.Type == "basic" && issue.Rule == Some(rule) && issue.Details == NoDetails
    ensures rule.ActionType == RedirectAction ==>
      var code, dest := rule.ActionParameter2, rule.ActionParameter1;
      && (code == "301" ==> |r| == 1 && r[0].Severity == Warning)
      && (code == "302" ==> (|r| == 1 <==> dest == "") && (|r| == 1 ==> r[0].Severity == Error))
      && (code == "" ==> (|r| == 1 <==> dest != "") && (|r| == 1 ==> r[0].Severity == Error))
      && (code != "" && code != "301" && code != "302" ==>
            (|r| == 1 <==> dest != "") && (|r| == 1 ==> r[0].Severity == Warning))
  {
    if rule.ActionType != RedirectAction then []
    else
      (if rule.ActionParameter2 == "301" then
         [CheckIssue("basic", Warning, "301 redirect detected (should be 302 for temporary redirects)", Some(rule), NoDetails)]
       else [])
      + (if rule.ActionParameter2 == "302" && rule.ActionParameter1 == "" then
           [CheckIssue("basic", Error, "302 redirect without destination URL", Some(rule), NoDetails)]
         else [])
      + (if rule.ActionParameter1 != "" && rule.ActionParameter2 != "302" then
           if rule.ActionParameter2 == "" then
             [CheckIssue("basic", Error, "Destination URL set but no redirect status code specified", Some(rule), NoDetails)]
           else if rule.ActionParameter2 != "301" then
             [CheckIssue("basic", Warning, "Destination URL set but status code is " + rule.ActionParameter2 + " (should be 302)",
                         Some(rule), NoDetails)]
           else []
         else [])
  }

  /** The basic issues of a list of rules, rule by rule. */
  function BasicIssues(rules: seq<EdgeRule>): seq<CheckIssue>
    decreases |rules|
  {
    if rules == [] then [] else BasicIssues(rules[..|rules| - 1]) + BasicIssuesFor(rules[|rules| - 1])
  }

  /** At most one basic issue per rule, and none for rules that are not redirects. */
  lemma {:induction false} BasicIssuesBound(rules: seq<EdgeRule>)
    ensures |BasicIssues(rules)| <= |rules|
    ensures forall issue :: issue in BasicIssues(rules) ==>
      issue.Rule.Some? && issue.Rule.value in rules && issue.Rule.value.ActionType == RedirectAction
    decreases |rules|
  {
    if rules != [] {
      var n := |rules| - 1;
      BasicIssuesBound(rules[..n]);
      assert forall r :: r in rules[..n] ==> r in rules;
    }
  }

  method CheckBasicRedirectIssues(rules: seq<EdgeRule>) returns (issues: seq<CheckIssue>)
    ensures issues == BasicIssues(rules)
  {
    issues := [];
    for i := 0 to |rules|
      invariant issues == BasicIssues(rules[..i])
    {
      assert rules[..i + 1][..i] == rules[..i];
      var ruleIssues := RuleBasicIssues(rules[i]);
      issues := issues + ruleIssues;
    }
    assert rules[..|rules|] == rules;
  }

  /** The body of checkBasicRedirectIssues' loop for one rule. */
  method RuleBasicIssues(rule: EdgeRule) returns (issues: seq<CheckIssue>)
    ensures issues == BasicIssuesFor(rule)
  {
    issues := [];
    if rule.ActionType == RedirectAction {
      if rule.ActionParameter2 == "301" {
        issues := issues + [CheckIssue("basic", Warning, "301 redirect detected (should be 302 for temporary redirects)", Some(rule), NoDetails)];
      }
      if rule.ActionParameter2 == "302" && rule.ActionParameter1 == "" {
        issues := issues + [CheckIssue("basic", Error, "302 redirect without destination URL", Some(rule), NoDetails)];
      }
      if rule.ActionParameter1 != "" && rule.ActionParameter2 != "302" {
        if rule.ActionParameter2 == "" {
          issues := issues + [CheckIssue("basic", Error, "Destination URL set but no redirect status code specified", Some(rule), NoDetails)];
        } else if rule.ActionParameter2 != "301" {
          issues := issues + [CheckIssue("basic", Warning, "Destination URL set but status code is " + rule.ActionParameter2 + " (should be 302)",
                                         Some(rule), NoDetails)];
        }
      }
    }
  }

  // ---------------------------------------------------------------------
  // checkConfigurationIssues
  // ---------------------------------------------------------------------

  /** The keys a redirect rule is grouped under: its source, and its normalised form when that differs. */
  function SourceRefs(rule: EdgeRule): (refs: seq<string>)
    ensures |refs| <= 2
    ensures rule.ActionType != RedirectAction || ExtractSourceURL(rule) == "" ==> refs == []
    ensures |refs| > 0 ==> refs[0] == ExtractSourceURL(rule)
    ensures forall x :: x in refs ==> x == ExtractSourceURL(rule) || x == NormalizeURL(ExtractSourceURL(rule))
    ensures forall i, j :: 0 <= i < j < |refs| ==> refs[i] != refs[j]
    ensures var source := ExtractSourceURL(rule);
      rule.ActionType == RedirectAction && source != "" ==> source in refs && NormalizeURL(source) in refs
  {
    var source := ExtractSourceURL(rule);
    if rule.ActionType != RedirectAction || source == "" then []
    else [source] + (if NormalizeURL(source) != source then [NormalizeURL(source)] else [])
  }

  /** The rules grouped under `key` so far (a nil slice when absent). */
  function Group(groups: map<string, seq<EdgeRule>>, key: string): seq<EdgeRule>
  {
    if key in groups then groups[key] else []
  }

  /** The `sourceURLs` map after the grouping pass. */
  function SourceGroups(rules: seq<EdgeRule>): map<string, seq<EdgeRule>>
    decreases |rules|
  {
    if rules == [] then map[]
    else
      var g := SourceGroups(rules[..|rules| - 1]);
      var rule := rules[|rules| - 1];
      var source := ExtractSourceURL(rule);
      if rule.ActionType != RedirectAction || source == "" then g
      else
        var g1 := g[source := Group(g, source) + [rule]];
        var normalized := NormalizeURL(source);
        if normalized != source then g1[normalized := Group(g1, normalized) + [rule]] else g1
  }

  /** How many rules are grouped under `key`: one per rule having it among its keys. */
  function RefCount(rules: seq<EdgeRule>, key: string): nat
    decreases |rules|
  {
    if rules == [] then 0
    else RefCount(rules[..|rules| - 1], key) + (if key in SourceRefs(rules[|rules| - 1]) then 1 else 0)
  }

  /** The group of a key holds one rule reference per rule that names it, so a key is present iff some rule names it. */
  lemma {:induction false} SourceGroupsCount(rules: seq<EdgeRule>, key: string)
    ensures |Group(SourceGroups(rules), key)| == RefCount(rules, key)
    ensures key in SourceGroups(rules) <==> RefCount(rules, key) > 0
    decreases |rules|
  {
    if rules != [] {
      var n := |rules| - 1;
      var rule := rules[n];
      var source := ExtractSourceURL(rule);
      SourceGroupsCount(rules[..n], key);
      if rule.ActionType != RedirectAction || source == "" {
        assert key !in SourceRefs(rule);
      } else {
        assert key in SourceRefs(rule) <==> key == source || key == NormalizeURL(source);
      }
    }
  }

  lemma RefCountOne(rules: seq<EdgeRule>, i: nat, key: string)
    requires i < |rules| && key in SourceRefs(rules[i])
    ensures RefCount(rules, key) >= 1
  {
    RefCountSplit(rules, i, key);
  }

  lemma RefCountLast(rules: seq<EdgeRule>, key: string)
    requires rules != []
    ensures RefCount(rules, key) == RefCount(rules[..|rules| - 1], key) + (if key in SourceRefs(rules[|rules| - 1]) then 1 else 0)
  {
  }

  lemma {:induction false} RefCountSplit(rules: seq<EdgeRule>, j: nat, key: string)
    requires j < |rules|
    ensures RefCount(rules, key) >= RefCount(rules[..j], key) + (if key in SourceRefs(rules[j]) then 1 else 0)
    decreases |rules|
  {
    var n := |rules| - 1;
    var prefix := rules[..n];
    RefCountLast(rules, key);
    if j < n {
      assert prefix[..j] == rules[..j] && prefix[j] == rules[j];
      RefCountSplit(prefix, j, key);
    }
  }

  lemma RefCountTwo(rules: seq<EdgeRule>, i: nat, j: nat, key: string)
    requires i < j < |rules| && key in SourceRefs(rules[i]) && key in SourceRefs(rules[j])
    ensures RefCount(rules, key) >= 2
  {
    RefCountSplit(rules, j, key);
    assert rules[..j][i] == rules[i];
    RefCountOne(rules[..j], i, key);
  }

  /** The duplicate errors, one per key with more than one rule reference, visiting the keys in `order`. */
  function DuplicateIssues(groups: map<string, seq<EdgeRule>>, order: seq<string>): (r: seq<CheckIssue>)
    ensures forall issue :: issue in r ==>
      issue.Type == "configuration" && issue.Severity == Error && issue.Details.ConflictCount? && issue.Details.count >= 2
    decreases |order|
  {
    if order == [] then []
    else
      var key := order[|order| - 1];
      DuplicateIssues(groups, order[..|order| - 1]) +
      (if key in groups && |groups[key]| > 1 then
         [CheckIssue("configuration", Error, "Duplicate/conflicting rules for source path: " + key,
                     Some(groups[key][0]), ConflictCount(|groups[key]|))]
       else [])
  }

  lemma DuplicateIssuesStep(groups: map<string, seq<EdgeRule>>, order: seq<string>, key: string)
    ensures DuplicateIssues(groups, order + [key]) ==
            DuplicateIssues(groups, order) +
            (if key in groups && |groups[key]| > 1 then
               [CheckIssue("configuration", Error, "Duplicate/conflicting rules for source path: " + key,
                           Some(groups[key][0]), ConflictCount(|groups[key]|))]
             else [])
  {
    assert (order + [key])[..|order|] == order;
  }

  /** The keys that get a duplicate error. */
  ghost function ConflictingKeys(groups: map<string, seq<EdgeRule>>): set<string>
  {
    set key | key in groups && |groups[key]| > 1
  }

  /** Whatever the map order, there is exactly one duplicate error per conflicting key. */
  lemma {:induction false} DuplicateIssuesCount(groups: map<string, seq<EdgeRule>>, order: seq<string>)
    requires forall i, j :: 0 <= i < j < |order| ==> order[i] != order[j]
    ensures |DuplicateIssues(groups, order)| == |set key | key in order && key in ConflictingKeys(groups)|
    decreases |order|
  {
    if order != [] {
      var n := |order| - 1;
      var prefix, last := order[..n], order[n];
      DuplicateIssuesCount(groups, prefix);
      var before := set key | key in prefix && key in ConflictingKeys(groups);
      var after := set key | key in order && key in ConflictingKeys(groups);
      assert last !in before;
      if last in ConflictingKeys(groups) {
        assert after == before + {last};
      } else {
        assert after == before;
      }
    }
  }

  /**
   * Two redirect rules whose sources differ at most in letter case and one
   * trailing slash are reported as conflicting: their common normalised
   * form is grouped under both.
   */
  lemma SameNormalFormConflicts(rules: seq<EdgeRule>, i: nat, j: nat)
    requires i < j < |rules|
    requires rules[i].ActionType == RedirectAction && rules[j].ActionType == RedirectAction
    requires ExtractSourceURL(rules[i]) != "" && ExtractSourceURL(rules[j]) != ""
    requires NormalizeURL(ExtractSourceURL(rules[i])) == NormalizeURL(ExtractSourceURL(rules[j]))
    ensures NormalizeURL(ExtractSourceURL(rules[i])) in ConflictingKeys(SourceGroups(rules))
  {
    var key := NormalizeURL(ExtractSourceURL(rules[i]));
    RefCountTwo(rules, i, j, key);
    SourceGroupsCount(rules, key);
  }

  /** The source of a redirect rule, or "" for any other rule. */
  function RedirectSource(rule: EdgeRule): string
  {
    if rule.ActionType == RedirectAction then ExtractSourceURL(rule) else ""
  }

  /** A warning when a redirect source is not all lower case. */
  function MixedCaseIssue(rule: EdgeRule): (r: seq<CheckIssue>)
    ensures |r| == 1 <==> RedirectSource(rule) != "" && ToLower(RedirectSource(rule)) != RedirectSource(rule)
    ensures |r| <= 1 && forall issue :: issue in r ==> issue.Severity == Warning && issue.Rule == Some(rule)
  {
    var source := RedirectSource(rule);
    if source != "" && ToLower(source) != source then
      [CheckIssue("configuration", Warning, "Mixed case in source URL may cause matching issues", Some(rule), NoDetails)]
    else []
  }

  /** An info when a redirect source ends in "/" and is not "/" itself. */
  function TrailingSlashIssue(rule: EdgeRule): (r: seq<CheckIssue>)
    ensures |r| == 1 <==> RedirectSource(rule) != "" && HasSuffix(RedirectSource(rule), "/") && RedirectSource(rule) != "/"
    ensures |r| <= 1 && forall issue :: issue in r ==> issue.Severity == Info && issue.Rule == Some(rule)
  {
    var source := RedirectSource(rule);
    if source != "" && HasSuffix(source, "/") && source != "/" then
      [CheckIssue("configuration", Info, "Source URL has trailing slash - ensure this matches expected traffic", Some(rule), NoDetails)]
    else []
  }

  function StyleIssuesFor(rule: EdgeRule): seq<CheckIssue>
  {
    MixedCaseIssue(rule) + TrailingSlashIssue(rule)
  }

  function StyleIssues(rules: seq<EdgeRule>): seq<CheckIssue>
    decreases |rules|
  {
    if rules == [] then [] else StyleIssues(rules[..|rules| - 1]) + StyleIssuesFor(rules[|rules| - 1])
  }

  /** The grouping pass of checkConfigurationIssues. */
  method GroupSources(rules: seq<EdgeRule>) returns (sourceURLs: map<string, seq<EdgeRule>>)
    ensures sourceURLs == SourceGroups(rules)
  {
    sourceURLs := map[];
    for i := 0 to |rules|
      invariant sourceURLs == SourceGroups(rules[..i])
    {
      assert rules[..i + 1][..i] == rules[..i];
      var rule := rules[i];
      if rule.ActionType == RedirectAction {
        var source := ExtractSourceURL(rule);
        if source != "" {
          sourceURLs := sourceURLs[source := Group(sourceURLs, source) + [rule]];
          var normalized := NormalizeURL(source);
          if normalized != source {
            sourceURLs := sourceURLs[normalized := Group(sourceURLs, normalized) + [rule]];
          }
        }
      }
    }
    assert rules[..|rules|] == rules;
  }

  /** The duplicate pass: one error per group of two or more, in map order. */
  method ReportDuplicates(sourceURLs: map<string, seq<EdgeRule>>) returns (issues: seq<CheckIssue>, ghost order: seq<string>)
    ensures IsOrdering(order, sourceURLs.Keys)
    ensures issues == DuplicateIssues(sourceURLs, order)
    ensures |issues| == |ConflictingKeys(sourceURLs)|
    ensures forall issue :: issue in issues ==> issue.Type == "configuration" && issue.Severity == Error
  {
    issues := [];
    order := [];
    var remaining := sourceURLs.Keys;
    while remaining != {}
      invariant remaining <= sourceURLs.Keys
      invariant forall k :: k in order <==> k in sourceURLs.Keys && k !in remaining
      invariant forall a, b :: 0 <= a < b < |order| ==> order[a] != order[b]
      invariant issues == DuplicateIssues(sourceURLs, order)
      decreases remaining
    {
      var source :| source in remaining;
      var ruleList := sourceURLs[source];
      DuplicateIssuesStep(sourceURLs, order, source);
      if |ruleList| > 1 {
        issues := issues + [CheckIssue("configuration", Error, "Duplicate/conflicting rules for source path: " + source,
                                       Some(ruleList[0]), ConflictCount(|ruleList|))];
      }
      order := order + [source];
      remaining := remaining - {source};
    }
    DuplicateIssuesCount(sourceURLs, order);
    assert (set key | key in order && key in ConflictingKeys(sourceURLs)) == ConflictingKeys(sourceURLs);
  }

  /** The style pass, in rule order. */
  method ReportStyle(rules: seq<EdgeRule>) returns (issues: seq<CheckIssue>)
    ensures issues == StyleIssues(rules)
  {
    issues := [];
    for i := 0 to |rules|
      invariant issues == StyleIssues(rules[..i])
    {
      assert rules[..i + 1][..i] == rules[..i];
      assert StyleIssues(rules[..i + 1]) == StyleIssues(rules[..i]) + StyleIssuesFor(rules[i]);
      var ruleIssues := RuleStyleIssues(rules[i]);
      issues := issues + ruleIssues;
    }
    assert rules[..|rules|] == rules;
  }

  /** The body of the style loop for one rule. */
  method RuleStyleIssues(rule: EdgeRule) returns (issues: seq<CheckIssue>)
    ensures issues == StyleIssuesFor(rule)
  {
    issues := [];
    if rule.ActionType == RedirectAction {
      var source := ExtractSourceURL(rule);
      if source != "" {
        assert source == RedirectSource(rule);
        var lowerSource := ToLower(source);
        if lowerSource != source {
          issues := issues + [CheckIssue("configuration", Warning, "Mixed case in source URL may cause matching issues", Some(rule), NoDetails)];
        }
        assert issues == MixedCaseIssue(rule);
        if HasSuffix(source, "/") && source != "/" {
          issues := issues + [CheckIssue("configuration", Info, "Source URL has trailing slash - ensure this matches expected traffic", Some(rule), NoDetails)];
        }
      }
    }
  }

  /**
   * checkConfigurationIssues: groups the rule references by source (and by
   * normalised source), reports every group of two or more in map order,
   * then reports the style of each source in rule order.
   */
  method CheckConfigurationIssues(rules: seq<EdgeRule>) returns (issues: seq<CheckIssue>, ghost order: seq<string>)
    ensures IsOrdering(order, SourceGroups(rules).Keys)
    ensures issues == DuplicateIssues(SourceGroups(rules), order) + StyleIssues(rules)
    ensures |issues| == |ConflictingKeys(SourceGroups(rules))| + |StyleIssues(rules)|
  {
    var sourceURLs := GroupSources(rules);
    var duplicates;
    duplicates, order := ReportDuplicates(sourceURLs);
    var style := ReportStyle(rules);
    issues := duplicates + style;
  }

  // ---------------------------------------------------------------------
  // checkSecurityIssues
  // ---------------------------------------------------------------------

  /** The patterns of isSuspiciousURL with their reasons, tried in this order. */
  const SuspiciousPatterns: seq<(string, string)> := [
    ("bit\\.ly|tinyurl|shortlink|t\\.co", "URL shortener detected"),
    ("[0-9]{1,3}\\.[0-9]{1,3}\\.[0-9]{1,3}\\.[0-9]{1,3}", "IP address instead of domain"),
    ("[a-z0-9]+-[a-z0-9]+-[a-z0-9]+\\.herokuapp\\.com", "Suspicious Heroku subdomain pattern"),
    ("[a-z]{20,}\\.com", "Suspiciously long random domain"),
    ("phishing|malware|scam|fake|fraud", "Contains suspicious keywords")
  ]

  /** A regular-expression matcher, `matches(pattern, text)`; the engine itself is not modelled. */
  type Matcher = (string, string) -> bool

  /** The reason of the first pattern matching the lower-cased URL. */
  function SuspiciousReason(url: string, matches: Matcher): (r: Option<string>)
    ensures r.Some? <==> exists i :: 0 <= i < |SuspiciousPatterns| && matches(SuspiciousPatterns[i].0, ToLower(url))
  {
    FirstMatch(ToLower(url), matches, 0)
  }

  function FirstMatch(lower: string, matches: Matcher, i: nat): (r: Option<string>)
    requires i <= |SuspiciousPatterns|
    ensures r.Some? <==> exists j :: i <= j < |SuspiciousPatterns| && matches(SuspiciousPatterns[j].0, lower)
    ensures r.Some? ==> exists j :: i <= j < |SuspiciousPatterns| && matches(SuspiciousPatterns[j].0, lower) &&
                                    r.value == SuspiciousPatterns[j].1 &&
                                    (forall l :: i <= l < j ==> !matches(SuspiciousPatterns[l].0, lower))
    decreases |SuspiciousPatterns| - i
  {
    if i == |SuspiciousPatterns| then None
    else if matches(SuspiciousPatterns[i].0, lower) then Some(SuspiciousPatterns[i].1)
    else FirstMatch(lower, matches, i + 1)
  }

  /** isSuspiciousURL: the first-match-wins scan over the patterns. */
  method IsSuspiciousURL(url: string, matches: Matcher) returns (suspicious: bool, reason: string)
    ensures suspicious <==> SuspiciousReason(url, matches).Some?
    ensures suspicious ==> reason == SuspiciousReason(url, matches).value
    ensures !suspicious ==> reason == ""
  {
    var lower := ToLower(url);
    for i := 0 to |SuspiciousPatterns|
      invariant FirstMatch(lower, matches, 0) == FirstMatch(lower, matches, i)
    {
      if matches(SuspiciousPatterns[i].0, lower) {
        return true, SuspiciousPatterns[i].1;
      }
    }
    return false, "";
  }

  /** A host is external when no zone hostname equals it case-insensitively. */
  predicate IsExternal(host: string, zoneHostnames: seq<Bunny.Hostname>)
  {
    forall i :: 0 <= i < |zoneHostnames| ==> !EqualFold(host, zoneHostnames[i].Value)
  }

  /** An http:// destination for a source that mentions https://. */
  predicate IsDowngrade(rule: EdgeRule)
  {
    HasPrefix(ToLower(rule.ActionParameter1), "http://") && Contains(ToLower(ExtractSourceURL(rule)), "https://")
  }

  /** A redirect with a destination; only these are examined for security issues and health. */
  predicate HasDestination(rule: EdgeRule)
  {
    rule.ActionType == RedirectAction && rule.ActionParameter1 != ""
  }

  function SuspiciousIssue(rule: EdgeRule, matches: Matcher): (r: seq<CheckIssue>)
    ensures |r| == 1 <==> HasDestination(rule) && SuspiciousReason(rule.ActionParameter1, matches).Some?
    ensures |r| <= 1 && forall issue :: issue in r ==> issue.Severity == Warning && issue.Rule == Some(rule)
  {
    var reason := SuspiciousReason(rule.ActionParameter1, matches);
    if HasDestination(rule) && reason.Some? then
      [CheckIssue("security", Warning, "Suspicious destination URL: " + reason.value, Some(rule), NoDetails)]
    else []
  }

  /**
   * An info for a destination whose host is not one of the zone's hostnames.
   * `parseHost` stands for `url.Parse`: the host of the parsed URL ("" for
   * a relative one), or None when parsing fails.
   */
  function OpenRedirectIssue(rule: EdgeRule, zoneHostnames: seq<Bunny.Hostname>, parseHost: string -> Option<string>): (r: seq<CheckIssue>)
    ensures |r| == 1 <==> HasDestination(rule) && parseHost(rule.ActionParameter1).Some? &&
                          parseHost(rule.ActionParameter1).value != "" &&
                          IsExternal(parseHost(rule.ActionParameter1).value, zoneHostnames)
    ensures |r| <= 1 && forall issue :: issue in r ==>
      issue.Severity == Info && issue.Rule == Some(rule) && issue.Details == ExternalHost(parseHost(rule.ActionParameter1).value)
  {
    var host := parseHost(rule.ActionParameter1);
    if HasDestination(rule) && host.Some? && host.value != "" && IsExternal(host.value, zoneHostnames) then
      [CheckIssue("security", Info, "Open redirect to external domain detected", Some(rule), ExternalHost(host.value))]
    else []
  }

  function DowngradeIssue(rule: EdgeRule): (r: seq<CheckIssue>)
    ensures |r| == 1 <==> HasDestination(rule) && IsDowngrade(rule)
    ensures |r| <= 1 && forall issue :: issue in r ==> issue.Severity == Error && issue.Rule == Some(rule)
  {
    if HasDestination(rule) && IsDowngrade(rule) then
      [CheckIssue("security", Error, "HTTPS to HTTP downgrade detected - security risk", Some(rule), NoDetails)]
    else []
  }

  function SecurityIssuesFor(rule: EdgeRule, zoneHostnames: seq<Bunny.Hostname>, matches: Matcher,
                             parseHost: string -> Option<string>): seq<CheckIssue>
  {
    SuspiciousIssue(rule, matches) + OpenRedirectIssue(rule, zoneHostnames, parseHost) + DowngradeIssue(rule)
  }

  function SecurityIssues(rules: seq<EdgeRule>, zoneHostnames: seq<Bunny.Hostname>, matches: Matcher,
                          parseHost: string -> Option<string>): seq<CheckIssue>
    decreases |rules|
  {
    if rules == [] then []
    else SecurityIssues(rules[..|rules| - 1], zoneHostnames, matches, parseHost) +
         SecurityIssuesFor(rules[|rules| - 1], zoneHostnames, matches, parseHost)
  }

  /** The zone-hostname loop of the open-redirect check: stops at the first hostname equal up to case. */
  method CheckExternal(host: string, zoneHostnames: seq<Bunny.Hostname>) returns (isExternal: bool)
    ensures isExternal == IsExternal(host, zoneHostnames)
  {
    isExternal := true;
    for h := 0 to |zoneHostnames|
      invariant isExternal == IsExternal(host, zoneHostnames[..h])
    {
      if EqualFold(host, zoneHostnames[h].Value) {
        isExternal := false;
        break;
      }
    }
    assert zoneHostnames[..|zoneHostnames|] == zoneHostnames;
  }

  /** The body of the checkSecurityIssues loop for one rule. */
  method CheckRuleSecurity(rule: EdgeRule, zoneHostnames: seq<Bunny.Hostname>, matches: Matcher,
                           parseHost: string -> Option<string>) returns (issues: seq<CheckIssue>)
    ensures issues == SecurityIssuesFor(rule, zoneHostnames, matches, parseHost)
  {
    issues := [];
    if rule.ActionType != RedirectAction || rule.ActionParameter1 == "" {
      return;
    }
    var destination := rule.ActionParameter1;
    var suspicious, reason := IsSuspiciousURL(destination, matches);
    if suspicious {
      issues := issues + [CheckIssue("security", Warning, "Suspicious destination URL: " + reason, Some(rule), NoDetails)];
    }
    assert issues == SuspiciousIssue(rule, matches);
    var destURL := parseHost(destination);
    if destURL.Some? && destURL.value != "" {
      var isExternal := CheckExternal(destURL.value, zoneHostnames);
      if isExternal {
        issues := issues + [CheckIssue("security", Info, "Open redirect to external domain detected", Some(rule), ExternalHost(destURL.value))];
      }
    }
    assert issues == SuspiciousIssue(rule, matches) + OpenRedirectIssue(rule, zoneHostnames, parseHost);
    if HasPrefix(ToLower(destination), "http://") {
      var source := ExtractSourceURL(rule);
      if Contains(ToLower(source), "https://") {
        issues := issues + [CheckIssue("security", Error, "HTTPS to HTTP downgrade detected - security risk", Some(rule), NoDetails)];
      }
    }
  }

  /** checkSecurityIssues: suspicious destinations, open redirects and downgrades, rule by rule. */
  method CheckSecurityIssues(rules: seq<EdgeRule>, zoneHostnames: seq<Bunny.Hostname>, matches: Matcher,
                             parseHost: string -> Option<string>) returns (issues: seq<CheckIssue>)
    ensures issues == SecurityIssues(rules, zoneHostnames, matches, parseHost)
  {
    issues := [];
    for i := 0 to |rules|
      invariant issues == SecurityIssues(rules[..i], zoneHostnames, matches, parseHost)
    {
      assert rules[..i + 1][..i] == rules[..i];
      var ruleIssues := CheckRuleSecurity(rules[i], zoneHostnames, matches, parseHost);
      issues := issues + ruleIssues;
    }
    assert rules[..|rules|] == rules;
  }

  // ---------------------------------------------------------------------
  // checkRedirectLoops
  // ---------------------------------------------------------------------

  /** Where following a chain of redirects ends. */
  datatype ChainOutcome = SingleHop | TooLong | Loop(url: string) | Chain(hops: nat)

  const MaxHops: nat := 10

  /**
   * The chain walk from `current`, having taken `hops` steps and seen
   * `visited`: more than 10 steps is too long, a repeated URL is a loop,
   * a URL that is not a source ends the chain.
   */
  function WalkChain(m: map<string, string>, current: string, visited: set<string>, hops: nat): (r: ChainOutcome)
    requires hops <= MaxHops
    ensures r.Chain? ==> hops < r.hops && 2 <= r.hops <= MaxHops
    ensures hops >= 1 ==> r != SingleHop
    ensures r == SingleHop <==> hops == 0 && current !in visited && current !in m
    decreases MaxHops - hops
  {
    var chainLength := hops + 1;
    if chainLength > MaxHops then TooLong
    else if current in visited then Loop(current)
    else if current !in m then (if chainLength > 1 then Chain(chainLength) else SingleHop)
    else WalkChain(m, m[current], visited + {current}, chainLength)
  }

  /** The outcome for one source of the redirect map. */
  function ChainFrom(m: map<string, string>, source: string): ChainOutcome
    requires source in m
  {
    WalkChain(m, m[source], {}, 0)
  }

  /** Two sources redirecting to each other are reported as a loop. */
  lemma TwoCycleIsLoop(m: map<string, string>, a: string, b: string)
    requires a in m && b in m && m[a] == b && m[b] == a && a != b
    ensures ChainFrom(m, a) == Loop(b)
  {
    assert WalkChain(m, b, {}, 0) == WalkChain(m, a, {b}, 1);
    assert WalkChain(m, a, {b}, 1) == WalkChain(m, b, {b, a}, 2);
  }

  /** A destination leading on to a final URL is a two-hop chain. */
  lemma TwoHopChain(m: map<string, string>, a: string, b: string)
    requires a in m && b in m && m[a] == b && m[b] !in m && m[b] != b
    ensures ChainFrom(m, a) == Chain(2)
  {
    assert WalkChain(m, b, {}, 0) == WalkChain(m, m[b], {b}, 1);
  }

  /** The URL reached from `start` after `k` redirects, if the map leads that far. */
  ghost function Hop(m: map<string, string>, start: string, k: nat): Option<string>
  {
    if k == 0 then Some(start)
    else
      var previous := Hop(m, start, k - 1);
      if previous.Some? && previous.value in m then Some(m[previous.value]) else None
  }

  /** The first `n` URLs of the walk are all sources, so the walk goes on past each. */
  ghost predicate Continues(m: map<string, string>, start: string, n: nat)
  {
    forall k :: 0 <= k < n ==> Hop(m, start, k).Some? && Hop(m, start, k).value in m
  }

  /** The first `n` URLs of the walk are pairwise different. */
  ghost predicate FreshUpTo(m: map<string, string>, start: string, n: nat)
  {
    forall i, j :: 0 <= i < j < n ==> Hop(m, start, i) != Hop(m, start, j)
  }

  /** The URLs among the first `n` of the walk. */
  ghost function Seen(m: map<string, string>, start: string, n: nat): set<string>
  {
    set k | 0 <= k < n && Hop(m, start, k).Some? :: Hop(m, start, k).value
  }

  /** Ten different sources in a row: the walk gives up. */
  ghost predicate RunsTooLong(m: map<string, string>, start: string)
  {
    Continues(m, start, MaxHops) && FreshUpTo(m, start, MaxHops)
  }

  /** The `n`-th URL repeats the `i`-th, after `n` different sources (and within the limit). */
  ghost predicate LoopsAt(m: map<string, string>, start: string, n: nat, i: nat)
  {
    i < n < MaxHops && Continues(m, start, n) && FreshUpTo(m, start, n) && Hop(m, start, n) == Hop(m, start, i)
  }

  /** The `n`-th URL is new and not a source, after `n` >= 1 different sources. */
  ghost predicate EndsAt(m: map<string, string>, start: string, n: nat)
  {
    1 <= n < MaxHops && Continues(m, start, n) && FreshUpTo(m, start, n + 1) &&
    Hop(m, start, n).Some? && Hop(m, start, n).value !in m
  }

  /** Following the walk from step `k` to step `n` passes only new sources, so the outcome is decided at `n`. */
  lemma {:induction false} WalkAlong(m: map<string, string>, start: string, k: nat, n: nat)
    requires k <= n <= MaxHops && Continues(m, start, n) && FreshUpTo(m, start, n)
    ensures Hop(m, start, k).Some? && Hop(m, start, n).Some?
    ensures WalkChain(m, Hop(m, start, k).value, Seen(m, start, k), k) ==
            WalkChain(m, Hop(m, start, n).value, Seen(m, start, n), n)
    decreases n - k
  {
    if k < n {
      var here := Hop(m, start, k).value;
      assert here !in Seen(m, start, k) by {
        forall i | 0 <= i < k && Hop(m, start, i).Some?
          ensures Hop(m, start, i).value != here
        {
          assert Hop(m, start, i) != Hop(m, start, k);
        }
      }
      assert Seen(m, start, k + 1) == Seen(m, start, k) + {here};
      WalkAlong(m, start, k + 1, n);
    } else if n > 0 {
      assert Hop(m, start, n - 1).value in m;
    }
  }

  /** The walk ends in exactly one of the four ways, whatever the map. */
  lemma {:induction false} WalkCases(m: map<string, string>, start: string, n: nat)
    requires n < MaxHops && Continues(m, start, n) && FreshUpTo(m, start, n + 1)
    ensures || (n == 0 && start !in m) || RunsTooLong(m, start)
            || (exists j, i :: LoopsAt(m, start, j, i)) || (exists j :: EndsAt(m, start, j))
    decreases MaxHops - n
  {
    var here := Hop(m, start, n);
    assert here.Some? by {
      if n > 0 { assert Hop(m, start, n - 1).value in m; }
    }
    if here.value !in m {
      if n > 0 {
        assert EndsAt(m, start, n);
      }
    } else {
      assert Continues(m, start, n + 1);
      if n + 1 == MaxHops {
        assert RunsTooLong(m, start);
      } else if i :| 0 <= i <= n && Hop(m, start, i) == Hop(m, start, n + 1) {
        assert LoopsAt(m, start, n + 1, i);
      } else {
        WalkCases(m, start, n + 1);
      }
    }
  }

  /**
   * The outcome of the walk from a destination `start`, for every map: no
   * issue exactly when `start` is not a source; too long exactly when ten
   * different sources follow each other; a loop at `u` exactly when the walk
   * comes back to `u` before that; a chain of `h` hops exactly when the URL
   * after `h` - 1 different sources is new and not a source.
   */
  lemma WalkOutcomes(m: map<string, string>, start: string)
    ensures WalkChain(m, start, {}, 0) == SingleHop <==> start !in m
    ensures WalkChain(m, start, {}, 0) == TooLong <==> RunsTooLong(m, start)
    ensures forall u :: WalkChain(m, start, {}, 0) == Loop(u) <==>
      exists n, i :: LoopsAt(m, start, n, i) && Hop(m, start, n) == Some(u)
    ensures forall h: nat :: WalkChain(m, start, {}, 0) == Chain(h) <==> 2 <= h && EndsAt(m, start, h - 1)
  {
    var r := WalkChain(m, start, {}, 0);
    assert Hop(m, start, 0) == Some(start);
    assert Seen(m, start, 0) == {};
    if RunsTooLong(m, start) {
      WalkAlong(m, start, 0, MaxHops);
    }
    forall n: nat, i: nat | LoopsAt(m, start, n, i)
      ensures r == Loop(Hop(m, start, n).value)
    {
      WalkLoops(m, start, n, i);
    }
    forall n: nat | EndsAt(m, start, n)
      ensures r == Chain(n + 1)
    {
      WalkEnds(m, start, n);
    }
    WalkCases(m, start, 0);
  }

  /** A walk that comes back to an earlier URL reports a loop at it. */
  lemma WalkLoops(m: map<string, string>, start: string, n: nat, i: nat)
    requires LoopsAt(m, start, n, i)
    ensures WalkChain(m, start, {}, 0) == Loop(Hop(m, start, n).value)
  {
    assert Hop(m, start, 0) == Some(start);
    assert Seen(m, start, 0) == {};
    WalkAlong(m, start, 0, n);
    assert Hop(m, start, n).value in Seen(m, start, n) by {
      assert Hop(m, start, i).Some?;
    }
  }

  /** A walk that reaches a new URL which is not a source reports a chain. */
  lemma WalkEnds(m: map<string, string>, start: string, n: nat)
    requires EndsAt(m, start, n)
    ensures WalkChain(m, start, {}, 0) == Chain(n + 1)
  {
    assert Hop(m, start, 0) == Some(start);
    assert Seen(m, start, 0) == {};
    WalkAlong(m, start, 0, n);
    var here := Hop(m, start, n).value;
    assert here !in Seen(m, start, n) by {
      forall k | 0 <= k < n && Hop(m, start, k).Some?
        ensures Hop(m, start, k).value != here
      {
        assert Hop(m, start, k) != Hop(m, start, n);
      }
    }
  }

  function RuleOf(rm: RedirectMap, source: string): Option<EdgeRule>
  {
    if source in rm.Rules then Some(rm.Rules[source]) else None
  }

  function ChainIssue(rm: RedirectMap, source: string, outcome: ChainOutcome): (r: seq<CheckIssue>)
    ensures |r| == 0 <==> outcome == SingleHop
    ensures |r| <= 1
    ensures |r| == 1 ==> r[0].Rule == RuleOf(rm, source)
    ensures |r| == 1 ==> (r[0].Severity == Error <==> outcome.TooLong? || outcome.Loop?)
    ensures outcome.Chain? ==> r[0].Severity == Warning && r[0].Type == "redirect_chain" &&
                               r[0].Message == "Redirect chain detected (" + IntToString(outcome.hops) + " hops)"
    ensures outcome.TooLong? ==> r[0].Type == "redirect_chain" && r[0].Details == NoDetails
    ensures outcome.Loop? ==> r[0].Type == "redirect_loop" && r[0].Details == LoopURL(outcome.url)
  {
    match outcome
    case SingleHop => []
    case TooLong => [CheckIssue("redirect_chain", Error, "Redirect chain too long (>10 hops)", RuleOf(rm, source), NoDetails)]
    case Loop(url) => [CheckIssue("redirect_loop", Error, "Infinite redirect loop detected", RuleOf(rm, source), LoopURL(url))]
    case Chain(hops) =>
      [CheckIssue("redirect_chain", Warning, "Redirect chain detected (" + IntToString(hops) + " hops)", RuleOf(rm, source), NoDetails)]
  }

  /** The issues of the sources in `order`, at most one each. */
  function LoopIssues(rm: RedirectMap, order: seq<string>): (r: seq<CheckIssue>)
    ensures |r| <= |order|
    decreases |order|
  {
    if order == [] then []
    else
      var source := order[|order| - 1];
      LoopIssues(rm, order[..|order| - 1]) +
      (if source in rm.SourceToDestination then ChainIssue(rm, source, ChainFrom(rm.SourceToDestination, source)) else [])
  }

  lemma LoopIssuesStep(rm: RedirectMap, order: seq<string>, source: string)
    ensures LoopIssues(rm, order + [source]) ==
            LoopIssues(rm, order) +
            (if source in rm.SourceToDestination then ChainIssue(rm, source, ChainFrom(rm.SourceToDestination, source)) else [])
  {
    assert (order + [source])[..|order|] == order;
  }

  /** The inner loop of checkRedirectLoops: follows one chain for at most 11 steps. */
  method FollowChain(m: map<string, string>, source: string) returns (outcome: ChainOutcome)
    requires source in m
    ensures outcome == ChainFrom(m, source)
  {
    var visited: set<string> := {};
    var current := m[source];
    var chainLength := 0;
    while true
      invariant chainLength <= MaxHops
      invariant WalkChain(m, current, visited, chainLength) == ChainFrom(m, source)
      decreases MaxHops - chainLength
    {
      chainLength := chainLength + 1;
      if chainLength > MaxHops {
        return TooLong;
      }
      if current in visited {
        return Loop(current);
      }
      visited := visited + {current};
      if current !in m {
        if chainLength > 1 {
          return Chain(chainLength);
        }
        return SingleHop;
      }
      current := m[current];
    }
  }

  /** checkRedirectLoops: one chain walk per source, in map order, at most one issue each. */
  method CheckRedirectLoops(rm: RedirectMap) returns (issues: seq<CheckIssue>, ghost order: seq<string>)
    ensures IsOrdering(order, rm.SourceToDestination.Keys)
    ensures issues == LoopIssues(rm, order)
    ensures |issues| <= |rm.SourceToDestination|
  {
    issues := [];
    order := [];
    var remaining := rm.SourceToDestination.Keys;
    while remaining != {}
      invariant remaining <= rm.SourceToDestination.Keys
      invariant forall k :: k in order <==> k in rm.SourceToDestination.Keys && k !in remaining
      invariant forall a, b :: 0 <= a < b < |order| ==> order[a] != order[b]
      invariant issues == LoopIssues(rm, order)
      decreases remaining
    {
      var source :| source in remaining;
      var outcome := FollowChain(rm.SourceToDestination, source);
      LoopIssuesStep(rm, order, source);
      issues := issues + ChainIssue(rm, source, outcome);
      order := order + [source];
      remaining := remaining - {source};
    }
    OrderingSize(order, rm.SourceToDestination.Keys);
  }

  /** An ordering of a key set is as long as the set is large. */
  lemma {:induction false} OrderingSize(order: seq<string>, keys: set<string>)
    requires IsOrdering(order, keys)
    ensures |order| == |keys|
    decreases |order|
  {
    if order != [] {
      var n := |order| - 1;
      var last := order[n];
      assert IsOrdering(order[..n], keys - {last}) by {
        forall k ensures k in order[..n] <==> k in keys - {last} {
          if k in order[..n] {
            var i :| 0 <= i < n && order[..n][i] == k;
            assert order[i] == k;
          }
          if k in keys - {last} {
            var i :| 0 <= i < |order| && order[i] == k;
            assert i != n;
            assert order[..n][i] == k;
          }
        }
      }
      OrderingSize(order[..n], keys - {last});
    }
  }

  // ---------------------------------------------------------------------
  // checkURLHealth
  // ---------------------------------------------------------------------

  /** The severity of a broken final status: 500 and above is critical, 400 to 499 an error. */
  function BrokenSeverity(statusCode: int): (r: Option<Severity>)
    ensures r == Some(Critical) <==> statusCode >= 500
    ensures r == Some(Error) <==> 400 <= statusCode < 500
    ensures r == None <==> statusCode < 400
  {
    if statusCode >= 400 then Some(if statusCode >= 500 then Critical else Error) else None
  }

  /** performHealthCheck reports a redirect for a final status in the 3xx range. */
  predicate HasRedirect(statusCode: int)
  {
    300 <= statusCode < 400
  }

  /**
   * The health issues of one rule. `validDomain` stands for isValidDomain and
   * `probe` for performHealthCheck: the final status code, or the request error.
   * Only destinations starting with "http" are probed.
   */
  function HealthIssuesFor(rule: EdgeRule, validDomain: string -> bool, probe: string -> Result<int, string>): (r: seq<CheckIssue>)
    ensures !HasDestination(rule) || !HasPrefix(rule.ActionParameter1, "http") ==> r == []
    ensures |r| <= 1
    ensures HasDestination(rule) && HasPrefix(rule.ActionParameter1, "http") && validDomain(rule.ActionParameter1) &&
            probe(rule.ActionParameter1).Success? ==>
      var code := probe(rule.ActionParameter1).value;
      && (|r| == 1 <==> code >= 400 || HasRedirect(code))
      && (code >= 400 ==> r[0].Severity == BrokenSeverity(code).value)
      && (HasRedirect(code) ==> r[0].Severity == Info)
    ensures HasDestination(rule) && HasPrefix(rule.ActionParameter1, "http") &&
            (!validDomain(rule.ActionParameter1) || probe(rule.ActionParameter1).Failure?) ==>
      |r| == 1 && r[0].Severity == Error
  {
    var destination := rule.ActionParameter1;
    if !HasDestination(rule) || !HasPrefix(destination, "http") then []
    else if !validDomain(destination) then
      [CheckIssue("url_health", Error, "Invalid destination URL format", Some(rule), NoDetails)]
    else
      match probe(destination)
      case Failure(err) => [CheckIssue("url_health", Error, "URL health check failed: " + err, Some(rule), NoDetails)]
      case Success(statusCode) => StatusIssues(rule, statusCode)
  }

  /** The issues a probed final status gives: a broken destination, then a redirecting one; never both. */
  function StatusIssues(rule: EdgeRule, statusCode: int): (r: seq<CheckIssue>)
    ensures |r| <= 1
    ensures |r| == 1 <==> statusCode >= 400 || HasRedirect(statusCode)
    ensures statusCode >= 400 ==> r[0].Severity == BrokenSeverity(statusCode).value
    ensures HasRedirect(statusCode) ==> r[0].Severity == Info
  {
    (if statusCode >= 400 then
       [CheckIssue("url_health", BrokenSeverity(statusCode).value, "Broken destination URL (HTTP " + IntToString(statusCode) + ")",
                   Some(rule), NoDetails)]
     else [])
    + (if HasRedirect(statusCode) then
         [CheckIssue("url_health", Info, "Destination URL itself redirects (creating a redirect chain)", Some(rule), NoDetails)]
       else [])
  }

  function HealthIssues(rules: seq<EdgeRule>, validDomain: string -> bool, probe: string -> Result<int, string>): (r: seq<CheckIssue>)
    ensures |r| <= |rules|
    decreases |rules|
  {
    if rules == [] then []
    else HealthIssues(rules[..|rules| - 1], validDomain, probe) + HealthIssuesFor(rules[|rules| - 1], validDomain, probe)
  }

  /** checkURLHealth: probes each absolute destination once, at most one issue per rule. */
  method CheckURLHealth(rules: seq<EdgeRule>, validDomain: string -> bool, probe: string -> Result<int, string>)
    returns (issues: seq<CheckIssue>)
    ensures issues == HealthIssues(rules, validDomain, probe)
  {
    issues := [];
    for i := 0 to |rules|
      invariant issues == HealthIssues(rules[..i], validDomain, probe)
    {
      assert rules[..i + 1][..i] == rules[..i];
      var rule := rules[i];
      var ruleIssues := [];
      if rule.ActionType == RedirectAction && rule.ActionParameter1 != "" {
        var destination := rule.ActionParameter1;
        if !HasPrefix(destination, "http") {
          assert HealthIssuesFor(rule, validDomain, probe) == [];
          continue;
        }
        if !validDomain(destination) {
          issues := issues + [CheckIssue("url_health", Error, "Invalid destination URL format", Some(rule), NoDetails)];
          continue;
        }
        var health := probe(destination);
        if health.Failure? {
          issues := issues + [CheckIssue("url_health", Error, "URL health check failed: " + health.error, Some(rule), NoDetails)];
          continue;
        }
        var statusCode := health.value;
        var hasRedirect := 300 <= statusCode < 400;
        if statusCode >= 400 {
          var severity := Error;
          if statusCode >= 500 {
            severity := Critical;
          }
          ruleIssues := ruleIssues + [CheckIssue("url_health", severity, "Broken destination URL (HTTP " + IntToString(statusCode) + ")",
                                                 Some(rule), NoDetails)];
        }
        if hasRedirect {
          ruleIssues := ruleIssues + [CheckIssue("url_health", Info, "Destination URL itself redirects (creating a redirect chain)", Some(rule), NoDetails)];
        }
      }
      assert ruleIssues == HealthIssuesFor(rule, validDomain, probe);
      issues := issues + ruleIssues;
    }
    assert rules[..|rules|] == rules;
  }
}
