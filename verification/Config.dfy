/** Configured repositories and their trusted-workflow policies, and what validation accepts
    (internal/config/config.go). */
module Config {
  import opened Collections
  import opened Text
  import opened Sorting

  datatype AuthorizationRule = AuthorizationRule(events: seq<string>, actors: seq<string>, requiredLabels: seq<string>)

  /** A zero ID and an empty path mean "not set". */
  datatype TrustedWorkflow = TrustedWorkflow(workflowID: int, workflowPath: string, rules: seq<AuthorizationRule>)

  datatype Repository = Repository(
    owner: string,
    name: string,
    visibility: string,
    runnerGroupID: int,
    trustedWorkflows: seq<TrustedWorkflow>)

  predicate ContainsFold(values: seq<string>, wanted: string) {
    exists i :: 0 <= i < |values| && EqualFold(values[i], wanted)
  }

  function TrimAll(values: seq<string>): (r: seq<string>)
    ensures |r| == |values|
    ensures forall i :: 0 <= i < |values| ==> r[i] == TrimSpace(values[i])
  {
    seq(|values|, i requires 0 <= i < |values| => TrimSpace(values[i]))
  }

  // ---------------------------------------------------------------------------------------------
  // What is accepted.

  predicate ValidPolicyValue(value: string, allowWildcard: bool) {
    value != "" && |value| <= 100 && !ContainsAny(value, " \t\r\n/\\?#") && (value == "*" ==> allowWildcard)
  }

  ghost predicate ValidPolicyValues(values: seq<string>, allowWildcard: bool) {
    && values != []
    && (forall i :: 0 <= i < |values| ==> ValidPolicyValue(values[i], allowWildcard))
    && Distinct(LowerAll(values))
  }

  ghost predicate ValidRule(rule: AuthorizationRule, labels: seq<string>) {
    && ValidPolicyValues(rule.events, false)
    && ValidPolicyValues(rule.actors, true)
    && ValidPolicyValues(rule.requiredLabels, false)
    && (ContainsFold(rule.actors, "*") ==> |rule.actors| == 1)
    && (forall i :: 0 <= i < |rule.requiredLabels| ==> ContainsFold(labels, rule.requiredLabels[i]))
  }

  function Canonicals(rules: seq<AuthorizationRule>): (r: seq<string>)
    ensures |r| == |rules|
    ensures forall i :: 0 <= i < |rules| ==> r[i] == CanonicalRule(rules[i])
  {
    seq(|rules|, i requires 0 <= i < |rules| => CanonicalRule(rules[i]))
  }

  ghost predicate ValidRules(rules: seq<AuthorizationRule>, labels: seq<string>) {
    && rules != []
    && (forall i :: 0 <= i < |rules| ==> ValidRule(rules[i], labels))
    && Distinct(Canonicals(rules))
  }

  predicate ValidWorkflowPath(value: string) {
    && ".github/workflows/" <= value
    && (HasSuffix(value, ".yml") || HasSuffix(value, ".yaml"))
    && !ContainsAny(value, "\\@?#") && !Contains(value, "//")
    && !Contains(value, "/../") && !Contains(value, "/./")
  }

  function Identity(workflow: TrustedWorkflow): string {
    if workflow.workflowPath != "" then "path:" + workflow.workflowPath else "id:" + Decimal(workflow.workflowID)
  }

  function Identities(workflows: seq<TrustedWorkflow>): (r: seq<string>)
    ensures |r| == |workflows|
    ensures forall i :: 0 <= i < |workflows| ==> r[i] == Identity(workflows[i])
  {
    seq(|workflows|, i requires 0 <= i < |workflows| => Identity(workflows[i]))
  }

  ghost predicate ValidWorkflow(workflow: TrustedWorkflow, labels: seq<string>) {
    && (workflow.workflowID > 0) != (workflow.workflowPath != "")
    && workflow.workflowID >= 0
    && (workflow.workflowPath != "" ==> ValidWorkflowPath(workflow.workflowPath))
    && ValidRules(workflow.rules, labels)
  }

  ghost predicate ValidWorkflows(workflows: seq<TrustedWorkflow>, labels: seq<string>) {
    && (forall i :: 0 <= i < |workflows| ==> ValidWorkflow(workflows[i], labels))
    && Distinct(Identities(workflows))
  }

  function RepositoryKey(repository: Repository): string {
    Lower(repository.owner + "/" + repository.name)
  }

  function RepositoryKeys(repositories: seq<Repository>): (r: seq<string>)
    ensures |r| == |repositories|
    ensures forall i :: 0 <= i < |repositories| ==> r[i] == RepositoryKey(repositories[i])
  {
    seq(|repositories|, i requires 0 <= i < |repositories| => RepositoryKey(repositories[i]))
  }

  ghost predicate ValidRepository(repository: Repository, labels: seq<string>) {
    && repository.owner != "" && repository.name != ""
    && !ContainsAny(repository.owner + repository.name, "/\\?#")
    && repository.runnerGroupID >= 1
    && (repository.visibility == "private" || repository.visibility == "public")
    && (repository.visibility == "public" ==> repository.trustedWorkflows != [])
    && ValidWorkflows(repository.trustedWorkflows, labels)
  }

  ghost predicate ValidRepositories(repositories: seq<Repository>, labels: seq<string>) {
    && repositories != []
    && (forall i :: 0 <= i < |repositories| ==>
          ValidRepository(repositories[i], labels) && EqualFold(repositories[0].owner, repositories[i].owner))
    && Distinct(RepositoryKeys(repositories))
  }

  /** No two entries give the same file, or the same number when they give no file. */
  ghost predicate IdentitiesApart(workflows: seq<TrustedWorkflow>) {
    forall i, j :: 0 <= i < j < |workflows| ==>
      if workflows[i].workflowPath != "" then workflows[i].workflowPath != workflows[j].workflowPath
      else workflows[j].workflowPath != "" || workflows[i].workflowID != workflows[j].workflowID
  }

  lemma {:induction false} SameIdentity(a: TrustedWorkflow, b: TrustedWorkflow)
    ensures Identity(a) == Identity(b) <==>
              a.workflowPath == b.workflowPath && (a.workflowPath == "" ==> a.workflowID == b.workflowID)
  {
    var x, y := Identity(a), Identity(b);
    assert x[0] == if a.workflowPath != "" then 'p' else 'i';
    assert y[0] == if b.workflowPath != "" then 'p' else 'i';
    if x == y {
      if a.workflowPath != "" {
        assert x[5..] == a.workflowPath && y[5..] == b.workflowPath;
      } else {
        assert x[3..] == Decimal(a.workflowID) && y[3..] == Decimal(b.workflowID);
        DecimalInjective(a.workflowID, b.workflowID);
      }
    }
  }

  lemma {:induction false} IdentitiesMean(workflows: seq<TrustedWorkflow>)
    ensures Distinct(Identities(workflows)) <==> IdentitiesApart(workflows)
  {
    hide Identity;
    forall i, j | 0 <= i < j < |workflows|
      ensures Identities(workflows)[i] == Identities(workflows)[j] <==>
              (workflows[i].workflowPath == workflows[j].workflowPath &&
               (workflows[i].workflowPath == "" ==> workflows[i].workflowID == workflows[j].workflowID))
    {
      SameIdentity(workflows[i], workflows[j]);
    }
  }

  /** A file directly or deeper under the workflow directory, with one of the two endings, and no character or
      segment that could make it mean another file or carry a ref. */
  ghost predicate PlainWorkflowFile(value: string) {
    && (exists rest: string :: value == ".github/workflows/" + rest)
    && (exists stem: string :: value == stem + ".yml" || value == stem + ".yaml")
    && (forall i :: 0 <= i < |value| ==> value[i] != '\\' && value[i] != '@' && value[i] != '?' && value[i] != '#')
    && (forall i, j :: 0 <= i <= j <= |value| ==> value[i..j] != "//" && value[i..j] != "/../" && value[i..j] != "/./")
  }

  lemma {:induction false} ContainsMeans(value: string, part: string)
    ensures Contains(value, part) <==> exists i, j :: 0 <= i <= j <= |value| && value[i..j] == part
  {
    if i :| 0 <= i <= |value| && OccursAt(value, part, i) {
      assert value[i..i + |part|] == part;
    }
    if i, j :| 0 <= i <= j <= |value| && value[i..j] == part {
      assert OccursAt(value, part, i);
    }
  }

  lemma {:induction false} PrefixMeans(value: string, prefix: string)
    ensures prefix <= value <==> exists rest: string :: value == prefix + rest
  {
    if prefix <= value {
      assert value == prefix + value[|prefix|..];
    }
  }

  lemma {:induction false} SuffixMeans(value: string, suffix: string)
    ensures HasSuffix(value, suffix) <==> exists stem: string :: value == stem + suffix
  {
    if HasSuffix(value, suffix) {
      assert value == value[..|value| - |suffix|] + suffix;
    }
  }

  lemma {:induction false} CharsMean(value: string)
    ensures ContainsAny(value, "\\@?#") <==>
            exists i :: 0 <= i < |value| && (value[i] == '\\' || value[i] == '@' || value[i] == '?' || value[i] == '#')
  {
    assert forall c: char :: c in "\\@?#" <==> c == '\\' || c == '@' || c == '?' || c == '#';
  }

  lemma {:induction false} WorkflowPathMeans(value: string)
    ensures ValidWorkflowPath(value) <==> PlainWorkflowFile(value)
  {
    hide Contains, ContainsAny, HasSuffix;
    PrefixMeans(value, ".github/workflows/");
    SuffixMeans(value, ".yml");
    SuffixMeans(value, ".yaml");
    CharsMean(value);
    ContainsMeans(value, "//");
    ContainsMeans(value, "/../");
    ContainsMeans(value, "/./");
    if exists stem: string :: value == stem + ".yml" || value == stem + ".yaml" {
      var stem: string :| value == stem + ".yml" || value == stem + ".yaml";
    }
  }

  // ---------------------------------------------------------------------------------------------
  // The normal form of a rule.

  function Tagged(tag: string, values: seq<string>): (r: seq<string>)
    ensures |r| == |values|
    ensures forall i :: 0 <= i < |values| ==> r[i] == tag + values[i]
  {
    seq(|values|, i requires 0 <= i < |values| => tag + values[i])
  }

  function Parts(rule: AuthorizationRule): seq<string> {
    Tagged("event:", rule.events)
    + Tagged("actor:", LowerAll(rule.actors))
    + Tagged("label:", LowerAll(rule.requiredLabels))
  }

  const NUL: char := 0 as char

  function CanonicalRule(rule: AuthorizationRule): string {
    Join(Sort(StringLeq, Parts(rule)), NUL)
  }

  // ---------------------------------------------------------------------------------------------
  // Trimming: what validation leaves behind.

  function TrimRule(rule: AuthorizationRule): AuthorizationRule {
    AuthorizationRule(TrimAll(rule.events), TrimAll(rule.actors), TrimAll(rule.requiredLabels))
  }

  function TrimRules(rules: seq<AuthorizationRule>): (r: seq<AuthorizationRule>)
    ensures |r| == |rules|
    ensures forall i :: 0 <= i < |rules| ==> r[i] == TrimRule(rules[i])
  {
    seq(|rules|, i requires 0 <= i < |rules| => TrimRule(rules[i]))
  }

  function TrimWorkflow(workflow: TrustedWorkflow): TrustedWorkflow {
    TrustedWorkflow(workflow.workflowID, TrimSpace(workflow.workflowPath), TrimRules(workflow.rules))
  }

  function TrimWorkflows(workflows: seq<TrustedWorkflow>): (r: seq<TrustedWorkflow>)
    ensures |r| == |workflows|
    ensures forall i :: 0 <= i < |workflows| ==> r[i] == TrimWorkflow(workflows[i])
  {
    seq(|workflows|, i requires 0 <= i < |workflows| => TrimWorkflow(workflows[i]))
  }

  function TrimRepository(r: Repository): Repository {
    Repository(TrimSpace(r.owner), TrimSpace(r.name), Lower(TrimSpace(r.visibility)), r.runnerGroupID,
               TrimWorkflows(r.trustedWorkflows))
  }

  function TrimRepositories(repositories: seq<Repository>): (r: seq<Repository>)
    ensures |r| == |repositories|
    ensures forall i :: 0 <= i < |repositories| ==> r[i] == TrimRepository(repositories[i])
  {
    seq(|repositories|, i requires 0 <= i < |repositories| => TrimRepository(repositories[i]))
  }

  lemma {:induction false} TrimAllTwice(values: seq<string>)
    ensures TrimAll(TrimAll(values)) == TrimAll(values)
  {
    hide TrimSpace;
    forall i | 0 <= i < |values| ensures TrimSpace(TrimSpace(values[i])) == TrimSpace(values[i]) {
      TrimIsTrimmed(values[i]);
    }
  }

  lemma {:induction false} TrimRulesTwice(rules: seq<AuthorizationRule>)
    ensures TrimRules(TrimRules(rules)) == TrimRules(rules)
  {
    hide TrimAll;
    forall i | 0 <= i < |rules| ensures TrimRule(TrimRule(rules[i])) == TrimRule(rules[i]) {
      TrimAllTwice(rules[i].events);
      TrimAllTwice(rules[i].actors);
      TrimAllTwice(rules[i].requiredLabels);
    }
    hide TrimRule;
  }

  lemma {:induction false} TrimWorkflowsTwice(workflows: seq<TrustedWorkflow>)
    ensures TrimWorkflows(TrimWorkflows(workflows)) == TrimWorkflows(workflows)
  {
    hide TrimRules, TrimSpace;
    forall i | 0 <= i < |workflows| ensures TrimWorkflow(TrimWorkflow(workflows[i])) == TrimWorkflow(workflows[i]) {
      TrimRulesTwice(workflows[i].rules);
      TrimIsTrimmed(workflows[i].workflowPath);
    }
    hide TrimWorkflow;
  }

  lemma {:induction false} TrimRepositoryTwice(r: Repository)
    ensures TrimRepository(TrimRepository(r)) == TrimRepository(r)
  {
    hide TrimWorkflows, TrimSpace, Lower;
    TrimWorkflowsTwice(r.trustedWorkflows);
    TrimIsTrimmed(r.owner);
    TrimIsTrimmed(r.name);
    TrimIsTrimmed(r.visibility);
    TrimLower(TrimSpace(r.visibility));
    LowerTwice(TrimSpace(r.visibility));
  }

  /** What validation leaves behind is trimmed throughout: validated again, it is accepted again, unchanged. */
  lemma {:induction false} ValidationIsIdempotent(repositories: seq<Repository>, labels: seq<string>)
    ensures var valid := TrimRepositories(repositories);
            && TrimRepositories(valid) == valid
            && (ValidRepositories(valid, labels) <==> ValidRepositories(TrimRepositories(valid), labels))
            && forall i :: 0 <= i < |valid| ==> Trimmed(valid[i].owner) && Trimmed(valid[i].name)
  {
    hide ValidRepositories, TrimSpace;
    forall i | 0 <= i < |repositories|
      ensures TrimRepository(TrimRepository(repositories[i])) == TrimRepository(repositories[i])
      ensures Trimmed(TrimRepository(repositories[i]).owner) && Trimmed(TrimRepository(repositories[i]).name)
    {
      TrimRepositoryTwice(repositories[i]);
      TrimIsTrimmed(repositories[i].owner);
      TrimIsTrimmed(repositories[i].name);
    }
    hide TrimRepository;
  }

  // ---------------------------------------------------------------------------------------------
  // The validators.  Each returns its trimmed input; no problem is reported exactly when the
  // trimmed input is acceptable.

  datatype Problem =
    | NoValues(field: string)
    | InvalidValue(field: string, value: string)
    | DuplicateValue(field: string, value: string)
    | MixedWildcard
    | UnadvertisedLabel(value: string)
    | NoRules
    | DuplicateRule(index: nat)
    | WorkflowIdentity(index: nat)
    | DuplicateWorkflow(index: nat)
    | NoRepositories
    | RepositoryIdentity(index: nat)
    | OwnerMismatch(index: nat)
    | DuplicateRepository(index: nat)
    | RunnerGroup(index: nat)
    | Visibility(index: nat)
    | PublicWithoutPolicy(index: nat)

  method ValidatePolicyValues(field: string, values: seq<string>, allowWildcard: bool)
    returns (trimmed: seq<string>, problems: seq<Problem>)
    ensures trimmed == TrimAll(values)
    ensures problems == [] <==> ValidPolicyValues(trimmed, allowWildcard)
  {
    hide Lower, TrimSpace, ContainsAny, Distinct;
    DistinctNone<string>();
    trimmed, problems := values, [];
    if |values| == 0 {
      problems := [NoValues(field)];
      return;
    }
    var seen: set<string> := {};
    ghost var final := TrimAll(values);
    ghost var keys := LowerAll(final);
    for i := 0 to |values|
      invariant |trimmed| == |values|
      invariant forall j :: 0 <= j < |values| ==> trimmed[j] == if j < i then final[j] else values[j]
      invariant forall key :: key in seen <==> key in keys[..i]
      invariant problems == [] <==>
                (forall j :: 0 <= j < i ==> ValidPolicyValue(final[j], allowWildcard)) && Distinct(keys[..i])
    {
      trimmed := trimmed[i := TrimSpace(trimmed[i])];
      var value := trimmed[i];
      var key := Lower(value);
      DistinctNext(keys, i);
      if value == "" || |value| > 100 || ContainsAny(value, " \t\r\n/\\?#") || (value == "*" && !allowWildcard) {
        problems := problems + [InvalidValue(field, value)];
      } else if key in seen {
        problems := problems + [DuplicateValue(field, value)];
      }
      seen := seen + {key};
    }
    assert keys[..|values|] == keys;
    assert trimmed == final;
  }

  method ValidateRule(rule: AuthorizationRule, labels: seq<string>)
    returns (trimmed: AuthorizationRule, problems: seq<Problem>)
    ensures trimmed == TrimRule(rule)
    ensures problems == [] <==> ValidRule(trimmed, labels)
  {
    hide Lower, TrimSpace, ValidPolicyValues, EqualFold, ContainsFold;
    var events, p1 := ValidatePolicyValues("events", rule.events, false);
    var actors, p2 := ValidatePolicyValues("actors", rule.actors, true);
    var required, p3 := ValidatePolicyValues("required_labels", rule.requiredLabels, false);
    trimmed, problems := AuthorizationRule(events, actors, required), p1 + p2 + p3;
    if ContainsFold(actors, "*") && |actors| != 1 {
      problems := problems + [MixedWildcard];
    }
    ghost var sofar := problems;
    for i := 0 to |required|
      invariant problems == [] <==> sofar == [] && forall j :: 0 <= j < i ==> ContainsFold(labels, required[j])
    {
      if !ContainsFold(labels, required[i]) {
        problems := problems + [UnadvertisedLabel(required[i])];
      }
    }
  }

  method ValidateRules(rules: seq<AuthorizationRule>, labels: seq<string>)
    returns (trimmed: seq<AuthorizationRule>, problems: seq<Problem>)
    ensures trimmed == TrimRules(rules)
    ensures problems == [] <==> ValidRules(trimmed, labels)
  {
    hide TrimRule, ValidRule, CanonicalRule;
    trimmed, problems := rules, [];
    if |rules| == 0 {
      problems := [NoRules];
      return;
    }
    var seen: set<string> := {};
    ghost var final := TrimRules(rules);
    ghost var keys := Canonicals(final);
    for i := 0 to |rules|
      invariant |trimmed| == |rules|
      invariant forall j :: 0 <= j < |rules| ==> trimmed[j] == if j < i then final[j] else rules[j]
      invariant forall key :: key in seen <==> key in keys[..i]
      invariant problems == [] <==> (forall j :: 0 <= j < i ==> ValidRule(final[j], labels)) && Distinct(keys[..i])
    {
      var rule, found := ValidateRule(trimmed[i], labels);
      trimmed, problems := trimmed[i := rule], problems + found;
      var identity := CanonicalRule(rule);
      DistinctNext(keys, i);
      if identity in seen {
        problems := problems + [DuplicateRule(i)];
      }
      seen := seen + {identity};
    }
    assert keys[..|rules|] == keys;
    assert trimmed == final;
  }

  method ValidateTrustedWorkflows(workflows: seq<TrustedWorkflow>, labels: seq<string>)
    returns (trimmed: seq<TrustedWorkflow>, problems: seq<Problem>)
    ensures trimmed == TrimWorkflows(workflows)
    ensures problems == [] <==> ValidWorkflows(trimmed, labels)
  {
    hide TrimSpace, ValidRules, ValidWorkflowPath, Identity, TrimRules;
    trimmed, problems := workflows, [];
    var seen: set<string> := {};
    ghost var final := TrimWorkflows(workflows);
    ghost var keys := Identities(final);
    for i := 0 to |workflows|
      invariant |trimmed| == |workflows|
      invariant forall j :: 0 <= j < |workflows| ==> trimmed[j] == if j < i then final[j] else workflows[j]
      invariant forall key :: key in seen <==> key in keys[..i]
      invariant problems == [] <==> (forall j :: 0 <= j < i ==> ValidWorkflow(final[j], labels)) && Distinct(keys[..i])
    {
      var path := TrimSpace(trimmed[i].workflowPath);
      var id := trimmed[i].workflowID;
      var rules, found := ValidateRules(trimmed[i].rules, labels);
      var workflow := TrustedWorkflow(id, path, rules);
      if (id > 0) == (path != "") || id < 0 || (path != "" && !ValidWorkflowPath(path)) {
        problems := problems + [WorkflowIdentity(i)];
      }
      var identity := Identity(workflow);
      DistinctNext(keys, i);
      if identity in seen {
        problems := problems + [DuplicateWorkflow(i)];
      }
      seen := seen + {identity};
      trimmed, problems := trimmed[i := workflow], problems + found;
    }
    assert keys[..|workflows|] == keys;
    assert trimmed == final;
  }

  method ValidateRepositories(repositories: seq<Repository>, labels: seq<string>)
    returns (trimmed: seq<Repository>, problems: seq<Problem>)
    ensures trimmed == TrimRepositories(repositories)
    ensures problems == [] <==> ValidRepositories(trimmed, labels)
  {
    hide TrimSpace, Lower, ValidWorkflows, RepositoryKey, TrimWorkflows, EqualFold, ContainsAny, Distinct;
    DistinctNone<string>();
    trimmed, problems := repositories, [];
    if |repositories| == 0 {
      problems := [NoRepositories];
      return;
    }
    var owner := TrimSpace(repositories[0].owner);
    var seen: set<string> := {};
    ghost var final := TrimRepositories(repositories);
    ghost var keys := RepositoryKeys(final);
    for i := 0 to |repositories|
      invariant |trimmed| == |repositories|
      invariant forall j :: 0 <= j < |repositories| ==> trimmed[j] == if j < i then final[j] else repositories[j]
      invariant forall key :: key in seen <==> key in keys[..i]
      invariant problems == [] <==>
                && (forall j :: 0 <= j < i ==> ValidRepository(final[j], labels) && EqualFold(owner, final[j].owner))
                && Distinct(keys[..i])
    {
      var r := trimmed[i];
      var workflows, found := ValidateTrustedWorkflows(r.trustedWorkflows, labels);
      r := Repository(TrimSpace(r.owner), TrimSpace(r.name), Lower(TrimSpace(r.visibility)), r.runnerGroupID,
        workflows);
      if r.owner == "" || r.name == "" || ContainsAny(r.owner + r.name, "/\\?#") {
        problems := problems + [RepositoryIdentity(i)];
      }
      if !EqualFold(owner, r.owner) {
        problems := problems + [OwnerMismatch(i)];
      }
      var key := RepositoryKey(r);
      DistinctNext(keys, i);
      if key in seen {
        problems := problems + [DuplicateRepository(i)];
      }
      seen := seen + {key};
      if r.runnerGroupID < 1 {
        problems := problems + [RunnerGroup(i)];
      }
      if r.visibility != "private" && r.visibility != "public" {
        problems := problems + [Visibility(i)];
      }
      if r.visibility == "public" && r.trustedWorkflows == [] {
        problems := problems + [PublicWithoutPolicy(i)];
      }
      trimmed, problems := trimmed[i := r], problems + found;
    }
    assert keys[..|repositories|] == keys;
    assert trimmed == final;
  }
}
