/** The authorization decision (internal/participant/policy.go) and the final recheck
    (internal/participant/participant.go). */
module Policy {
  import opened Text
  import opened Jobs
  import opened Labels
  import Config

  datatype Verdict = Verdict(allowed: bool, reason: string)

  predicate WorkflowMatches(workflow: Config.TrustedWorkflow, job: ObservedJob) {
    if workflow.workflowID > 0 then workflow.workflowID == job.workflowID
    else workflow.workflowPath == job.workflowPath || workflow.workflowPath + "@" <= job.workflowPath
  }

  predicate RuleMatches(rule: Config.AuthorizationRule, job: ObservedJob) {
    && job.event in rule.events
    && LabelsCompatible(rule.requiredLabels, job.labels)
    && if |rule.actors| == 1 && rule.actors[0] == "*" then job.actor != "" && job.triggeringActor != ""
       else Config.ContainsFold(rule.actors, job.actor) && Config.ContainsFold(rule.actors, job.triggeringActor)
  }

  predicate SomeRuleMatches(rules: seq<Config.AuthorizationRule>, job: ObservedJob) {
    exists i :: 0 <= i < |rules| && RuleMatches(rules[i], job)
  }

  /** The scan over trusted workflows: the first one that matches decides. */
  function Judge(workflows: seq<Config.TrustedWorkflow>, job: ObservedJob): Verdict {
    if workflows == [] then Verdict(false, "workflow is not trusted")
    else if !WorkflowMatches(workflows[0], job) then Judge(workflows[1..], job)
    else if SomeRuleMatches(workflows[0].rules, job) then Verdict(true, "trusted workflow rule matched")
    else Verdict(false, "workflow matched but event, actor, or labels did not")
  }

  predicate Incomplete(job: ObservedJob) {
    job.runID < 1 || job.jobRunID != job.runID || job.jobID < 1 || job.serverRepository == "" ||
    job.workflowID < 1 || job.workflowPath == "" || job.event == "" || job.actor == "" || job.triggeringActor == ""
  }

  function AuthorizeJob(repository: Config.Repository, job: ObservedJob): Verdict {
    if repository.trustedWorkflows == [] then
      if repository.visibility == "" || repository.visibility == "private"
      then Verdict(true, "private repository has no workflow policy")
      else Verdict(false, "public repository has no workflow policy")
    else if Incomplete(job) then Verdict(false, "policy metadata is incomplete")
    else if !EqualFold(job.serverRepository, repository.owner + "/" + repository.name)
            || job.repositoryPrivate != (repository.visibility == "private")
    then Verdict(false, "repository identity or visibility does not match policy")
    else Judge(repository.trustedWorkflows, job)
  }

  /** What the re-fetched job and run must still say about the observed job. */
  predicate FinalMetadataConsistent(repository: Config.Repository, observed: ObservedJob, final: ObservedJob,
                                    runStatus: string) {
    && final.jobID == observed.jobID && final.runID == observed.runID && final.jobRunID == observed.runID
    && final.status == "queued" && (runStatus == "queued" || runStatus == "in_progress")
    && EqualFold(final.serverRepository, repository.owner + "/" + repository.name)
    && final.repositoryPrivate == (repository.visibility == "" || repository.visibility == "private")
    && SameLabelBag(final.labels, observed.labels)
    && (repository.trustedWorkflows != [] ==>
          && final.workflowID == observed.workflowID && final.workflowPath == observed.workflowPath
          && final.event == observed.event && EqualFold(final.actor, observed.actor)
          && EqualFold(final.triggeringActor, observed.triggeringActor))
  }

  // ---------------------------------------------------------------------------------------------
  // What the decisions mean, in terms of the metadata alone.

  /** Every identity the decision relies on is present, and the job belongs to the run. */
  predicate Complete(job: ObservedJob) {
    && job.runID >= 1 && job.jobRunID == job.runID && job.jobID >= 1 && job.workflowID >= 1
    && job.serverRepository != "" && job.workflowPath != "" && job.event != "" && job.actor != ""
    && job.triggeringActor != ""
  }

  /** The entry gives the job's workflow: its number, or its file, which the job may name with a ref. */
  ghost predicate Designates(workflow: Config.TrustedWorkflow, job: ObservedJob) {
    if workflow.workflowID > 0 then job.workflowID == workflow.workflowID
    else job.workflowPath == workflow.workflowPath
         || exists ref: string :: job.workflowPath == workflow.workflowPath + "@" + ref
  }

  ghost predicate Names(values: seq<string>, wanted: string) {
    exists i :: 0 <= i < |values| && Lower(values[i]) == Lower(wanted)
  }

  /** The rule lists the event; the job has all the labels the rule requires; and the rule trusts anyone, or both
      who caused the run and who triggered it. */
  ghost predicate Admits(rule: Config.AuthorizationRule, job: ObservedJob) {
    && (exists i :: 0 <= i < |rule.events| && rule.events[i] == job.event)
    && (forall i :: 0 <= i < |rule.requiredLabels| ==> Names(job.labels, rule.requiredLabels[i]))
    && (rule.actors == ["*"] || (Names(rule.actors, job.actor) && Names(rule.actors, job.triggeringActor)))
  }

  /** The first entry that gives the job's workflow has a rule that admits the job. */
  ghost predicate FirstEntryAdmits(workflows: seq<Config.TrustedWorkflow>, job: ObservedJob) {
    exists i, r :: 0 <= i < |workflows| && 0 <= r < |workflows[i].rules|
      && Designates(workflows[i], job) && Admits(workflows[i].rules[r], job)
      && forall k :: 0 <= k < i ==> !Designates(workflows[k], job)
  }

  lemma {:induction false} WorkflowMatchesMeans(workflow: Config.TrustedWorkflow, job: ObservedJob)
    ensures WorkflowMatches(workflow, job) <==> Designates(workflow, job)
  {
    var path := workflow.workflowPath;
    if path + "@" <= job.workflowPath {
      assert job.workflowPath == path + "@" + job.workflowPath[|path| + 1..];
    }
    if ref: string :| job.workflowPath == path + "@" + ref {
      assert path + "@" <= job.workflowPath;
    }
  }

  lemma {:induction false} NamesMeans(values: seq<string>, wanted: string)
    ensures Names(values, wanted) <==> Config.ContainsFold(values, wanted)
    ensures Names(values, wanted) <==> Lower(wanted) in LowerAll(values)
  {
    hide Lower;
    if Config.ContainsFold(values, wanted) {
      var i :| 0 <= i < |values| && EqualFold(values[i], wanted);
      assert Lower(values[i]) == Lower(wanted) && LowerAll(values)[i] == Lower(wanted);
    }
    if Names(values, wanted) {
      var i :| 0 <= i < |values| && Lower(values[i]) == Lower(wanted);
      assert EqualFold(values[i], wanted) && LowerAll(values)[i] == Lower(wanted);
    }
    if Lower(wanted) in LowerAll(values) {
      var i :| 0 <= i < |values| && LowerAll(values)[i] == Lower(wanted);
      assert Lower(values[i]) == Lower(wanted);
    }
  }

  lemma {:induction false} RuleMatchesMeans(rule: Config.AuthorizationRule, job: ObservedJob)
    requires Complete(job)
    ensures RuleMatches(rule, job) <==> Admits(rule, job)
  {
    hide Lower, Config.ContainsFold, Names;
    NamesMeans(rule.actors, job.actor);
    NamesMeans(rule.actors, job.triggeringActor);
    forall i | 0 <= i < |rule.requiredLabels|
      ensures Names(job.labels, rule.requiredLabels[i]) <==> Lower(rule.requiredLabels[i]) in LowerAll(job.labels)
    {
      NamesMeans(job.labels, rule.requiredLabels[i]);
    }
    CompatibleMeans(rule.requiredLabels, job.labels);
  }

  /** Every required label is among the available ones, up to case. */
  ghost predicate AllNamed(required: seq<string>, available: seq<string>) {
    forall i :: 0 <= i < |required| ==> Names(available, required[i])
  }

  lemma {:induction false} AllNamedMeans(required: seq<string>, available: seq<string>)
    ensures LabelsCompatible(required, available) <==> AllNamed(required, available)
  {
    hide Lower, Names;
    CompatibleMeans(required, available);
    forall i | 0 <= i < |required|
      ensures Names(available, required[i]) <==> Lower(required[i]) in LowerAll(available)
    {
      NamesMeans(available, required[i]);
    }
  }

  lemma {:induction false} CompatibleMeans(required: seq<string>, available: seq<string>)
    ensures LabelsCompatible(required, available) <==>
              forall i :: 0 <= i < |required| ==> Lower(required[i]) in LowerAll(available)
  {
    hide Lower;
  }

  lemma {:induction false} JudgeMeans(workflows: seq<Config.TrustedWorkflow>, job: ObservedJob)
    requires Complete(job)
    ensures Judge(workflows, job).allowed <==> FirstEntryAdmits(workflows, job)
  {
    FirstMatchDecides(workflows, job);
    hide Judge, WorkflowMatches, RuleMatches, Designates, Admits;
    forall i | 0 <= i < |workflows| ensures WorkflowMatches(workflows[i], job) <==> Designates(workflows[i], job) {
      WorkflowMatchesMeans(workflows[i], job);
    }
    forall rule ensures RuleMatches(rule, job) <==> Admits(rule, job) {
      RuleMatchesMeans(rule, job);
    }
    if i: nat :| FirstMatch(workflows, job, i) && Approves(workflows[i], job) {
      var r :| 0 <= r < |workflows[i].rules| && RuleMatches(workflows[i].rules[r], job);
      assert Designates(workflows[i], job) && Admits(workflows[i].rules[r], job);
    }
    if FirstEntryAdmits(workflows, job) {
      var i, r :| 0 <= i < |workflows| && 0 <= r < |workflows[i].rules|
        && Designates(workflows[i], job) && Admits(workflows[i].rules[r], job)
        && forall k :: 0 <= k < i ==> !Designates(workflows[k], job);
      assert RuleMatches(workflows[i].rules[r], job);
      assert FirstMatch(workflows, job, i) && Approves(workflows[i], job);
    }
  }

  /** The authorization decision, from the configured repository and the job's metadata. */
  ghost predicate Authorized(repository: Config.Repository, job: ObservedJob) {
    if repository.trustedWorkflows == [] then repository.visibility == "" || repository.visibility == "private"
    else
      && Complete(job)
      && Lower(job.serverRepository) == Lower(repository.owner + "/" + repository.name)
      && (job.repositoryPrivate <==> repository.visibility == "private")
      && FirstEntryAdmits(repository.trustedWorkflows, job)
  }

  lemma {:induction false} AuthorizedExactlyWhen(repository: Config.Repository, job: ObservedJob)
    ensures AuthorizeJob(repository, job).allowed <==> Authorized(repository, job)
  {
    hide Lower, FirstEntryAdmits, Judge;
    if Complete(job) {
      JudgeMeans(repository.trustedWorkflows, job);
    }
  }

  /** The server names the configured repository and its visibility. */
  predicate IsConfigured(repository: Config.Repository, job: ObservedJob) {
    && Lower(job.serverRepository) == Lower(repository.owner + "/" + repository.name)
    && (job.repositoryPrivate <==> repository.visibility == "private")
  }

  ghost predicate Designated(workflows: seq<Config.TrustedWorkflow>, job: ObservedJob) {
    exists i :: 0 <= i < |workflows| && Designates(workflows[i], job)
  }

  /** Which reason is logged, and when. */
  lemma {:induction false} ReasonsMean(repository: Config.Repository, job: ObservedJob)
    ensures AuthorizeJob(repository, job).reason ==
              if repository.trustedWorkflows == [] then
                if Authorized(repository, job) then "private repository has no workflow policy"
                else "public repository has no workflow policy"
              else if !Complete(job) then "policy metadata is incomplete"
              else if !IsConfigured(repository, job) then "repository identity or visibility does not match policy"
              else if !Designated(repository.trustedWorkflows, job) then "workflow is not trusted"
              else if Authorized(repository, job) then "trusted workflow rule matched"
              else "workflow matched but event, actor, or labels did not"
  {
    hide Lower, FirstEntryAdmits, Judge;
    if Complete(job) {
      JudgeMeans(repository.trustedWorkflows, job);
      JudgeReason(repository.trustedWorkflows, job);
    }
  }

  lemma {:induction false} JudgeReason(workflows: seq<Config.TrustedWorkflow>, job: ObservedJob)
    ensures Judge(workflows, job).reason ==
              if !Designated(workflows, job) then "workflow is not trusted"
              else if Judge(workflows, job).allowed then "trusted workflow rule matched"
              else "workflow matched but event, actor, or labels did not"
  {
    hide WorkflowMatches, SomeRuleMatches, Designates;
    if workflows != [] {
      WorkflowMatchesMeans(workflows[0], job);
      JudgeReason(workflows[1..], job);
      var rest := workflows[1..];
      if Designated(workflows, job) && !Designates(workflows[0], job) {
        var i :| 0 <= i < |workflows| && Designates(workflows[i], job);
        assert rest[i - 1] == workflows[i];
      }
      assert forall i :: 0 <= i < |rest| ==> rest[i] == workflows[i + 1];
    }
  }

  /** The final recheck, from the observed and the re-fetched metadata. */
  ghost predicate StillTheSame(repository: Config.Repository, observed: ObservedJob, final: ObservedJob,
                               runStatus: string) {
    && final.status == "queued" && (runStatus == "queued" || runStatus == "in_progress")
    && final.jobID == observed.jobID && final.runID == observed.runID && final.jobRunID == observed.runID
    && Lower(final.serverRepository) == Lower(repository.owner + "/" + repository.name)
    && (final.repositoryPrivate <==> repository.visibility == "" || repository.visibility == "private")
    && multiset(LowerAll(final.labels)) == multiset(LowerAll(observed.labels))
    && (repository.trustedWorkflows != [] ==>
          && final.workflowID == observed.workflowID && final.workflowPath == observed.workflowPath
          && final.event == observed.event && Lower(final.actor) == Lower(observed.actor)
          && Lower(final.triggeringActor) == Lower(observed.triggeringActor))
  }

  lemma {:induction false} ConsistentExactlyWhen(repository: Config.Repository, observed: ObservedJob,
                                                 final: ObservedJob, runStatus: string)
    ensures FinalMetadataConsistent(repository, observed, final, runStatus) <==>
            StillTheSame(repository, observed, final, runStatus)
  {
    hide Lower;
  }

  // ---------------------------------------------------------------------------------------------
  // The decision is stable under the recheck.

  /** Jobs no trusted-workflow rule can tell apart. */
  ghost predicate Indistinguishable(a: ObservedJob, b: ObservedJob) {
    && a.workflowID == b.workflowID && a.workflowPath == b.workflowPath && a.event == b.event
    && EqualFold(a.actor, b.actor) && EqualFold(a.triggeringActor, b.triggeringActor)
    && SameLabelBag(a.labels, b.labels)
  }

  lemma {:induction false} RuleCongruence(rule: Config.AuthorizationRule, a: ObservedJob, b: ObservedJob)
    requires Indistinguishable(a, b)
    ensures RuleMatches(rule, a) == RuleMatches(rule, b)
  {
    CompatibleUpToCase(a.labels, b.labels, rule.requiredLabels);
    assert |Lower(a.actor)| == |Lower(b.actor)| && |Lower(a.triggeringActor)| == |Lower(b.triggeringActor)|;
    hide LabelsCompatible, SameLabelBag;
  }

  lemma {:induction false} JudgeCongruence(workflows: seq<Config.TrustedWorkflow>, a: ObservedJob, b: ObservedJob)
    requires Indistinguishable(a, b)
    ensures Judge(workflows, a) == Judge(workflows, b)
  {
    hide RuleMatches, Indistinguishable;
    if workflows != [] {
      forall i | 0 <= i < |workflows[0].rules|
        ensures RuleMatches(workflows[0].rules[i], a) == RuleMatches(workflows[0].rules[i], b)
      {
        RuleCongruence(workflows[0].rules[i], a, b);
      }
      assert WorkflowMatches(workflows[0], a) == WorkflowMatches(workflows[0], b) by { SameWorkflow(a, b); }
      JudgeCongruence(workflows[1..], a, b);
    }
  }

  lemma {:induction false} SameWorkflow(a: ObservedJob, b: ObservedJob)
    requires Indistinguishable(a, b)
    ensures a.workflowID == b.workflowID && a.workflowPath == b.workflowPath
  {
  }

  /** If the observed job was authorized and label-compatible and the re-fetched one is consistent with
      it, the re-fetched job is label-compatible too, and it is authorized exactly unless the repository
      has a policy but a blank visibility (which validation never leaves behind). */
  lemma {:induction false} AuthorizationIsCongruent(repository: Config.Repository, observed: ObservedJob,
                                                    final: ObservedJob,
                                 runStatus: string, available: seq<string>)
    requires AuthorizeJob(repository, observed).allowed
    requires LabelsCompatible(observed.labels, available)
    requires FinalMetadataConsistent(repository, observed, final, runStatus)
    ensures LabelsCompatible(final.labels, available)
    ensures AuthorizeJob(repository, final).allowed <==>
        repository.trustedWorkflows == [] || repository.visibility != ""
  {
    CompatibleUpToCase(final.labels, observed.labels, available);
    if repository.trustedWorkflows != [] {
      JudgeCongruence(repository.trustedWorkflows, observed, final);
      SameLength(final.actor, observed.actor);
      SameLength(final.triggeringActor, observed.triggeringActor);
      SameLength(final.serverRepository, repository.owner + "/" + repository.name);
    }
  }

  lemma {:induction false} SameLength(a: string, b: string)
    requires EqualFold(a, b)
    ensures |a| == |b|
  {
    assert |Lower(a)| == |a| && |Lower(b)| == |b|;
  }

  /** For a repository that passed validation the recheck never changes the decision. */
  lemma {:induction false} ValidatedAuthorizationIsStable(repository: Config.Repository, labels: seq<string>,
                                                          observed: ObservedJob,
                                       final: ObservedJob, runStatus: string)
    requires Config.ValidRepository(repository, labels)
    requires AuthorizeJob(repository, observed).allowed && LabelsCompatible(observed.labels, labels)
    requires FinalMetadataConsistent(repository, observed, final, runStatus)
    ensures AuthorizeJob(repository, final).allowed && LabelsCompatible(final.labels, labels)
  {
    AuthorizationIsCongruent(repository, observed, final, runStatus, labels);
  }

  // ---------------------------------------------------------------------------------------------
  // Which workflow entries can match.

  lemma {:induction false} PathBeforeRef(path: string, job: string)
    requires path == job || path + "@" <= job
    requires '@' !in path
    ensures path <= job
    ensures '@' in job ==> |path| < |job| && job[|path|] == '@'
    ensures '@' !in job ==> path == job
    ensures forall i :: 0 <= i < |path| ==> job[i] != '@'
  {
    if path + "@" <= job {
      assert job[..|path| + 1] == path + "@";
      assert job[|path|] == (path + "@")[|path|];
      assert forall i :: 0 <= i < |path| ==> job[i] == (path + "@")[i];
    }
  }

  /** Two valid paths that match the same job are the same path. */
  lemma {:induction false} OnePathMatches(p: string, q: string, job: string)
    requires p == job || p + "@" <= job
    requires q == job || q + "@" <= job
    requires '@' !in p && '@' !in q
    ensures p == q
  {
    PathBeforeRef(p, job);
    PathBeforeRef(q, job);
    if '@' in job {
      assert |p| == |q|;
    }
    assert p == job[..|p|] && q == job[..|q|];
  }

  lemma {:induction false} ValidPathHasNoRef(path: string)
    requires Config.ValidWorkflowPath(path)
    ensures '@' !in path
  {
    hide Contains, HasSuffix;
    assert "\\@?#"[1] == '@';
    forall i | 0 <= i < |path| ensures path[i] != '@' {
    }
  }

  predicate ByID(workflow: Config.TrustedWorkflow) {
    workflow.workflowID > 0
  }

  /** Of a validated policy at most one ID entry and at most one path entry match a given job. */
  lemma {:induction false} AtMostOneOfEachKind(workflows: seq<Config.TrustedWorkflow>, labels: seq<string>,
                                               job: ObservedJob, i: nat, j: nat)
    requires Config.ValidWorkflows(workflows, labels)
    requires i < |workflows| && j < |workflows|
    requires WorkflowMatches(workflows[i], job) && WorkflowMatches(workflows[j], job)
    requires ByID(workflows[i]) == ByID(workflows[j])
    ensures i == j
  {
    hide Config.ValidRules, Config.ValidWorkflowPath, Decimal;
    var v, w := workflows[i], workflows[j];
    assert Config.ValidWorkflow(v, labels) && Config.ValidWorkflow(w, labels);
    if !ByID(v) {
      ValidPathHasNoRef(v.workflowPath);
      ValidPathHasNoRef(w.workflowPath);
      OnePathMatches(v.workflowPath, w.workflowPath, job.workflowPath);
    }
    assert Config.Identity(v) == Config.Identity(w);
    assert Config.Identities(workflows)[i] == Config.Identities(workflows)[j];
  }

  ghost predicate Approves(workflow: Config.TrustedWorkflow, job: ObservedJob) {
    WorkflowMatches(workflow, job) && SomeRuleMatches(workflow.rules, job)
  }

  /** `i` is the first entry that matches the job. */
  ghost predicate FirstMatch(workflows: seq<Config.TrustedWorkflow>, job: ObservedJob, i: nat) {
    && i < |workflows| && WorkflowMatches(workflows[i], job)
    && forall j :: 0 <= j < i ==> !WorkflowMatches(workflows[j], job)
  }

  /** With any mix of entries the decision is the verdict of the first matching entry. */
  lemma {:induction false} FirstMatchDecides(workflows: seq<Config.TrustedWorkflow>, job: ObservedJob)
    ensures Judge(workflows, job).allowed <==>
        exists i: nat :: FirstMatch(workflows, job, i) && Approves(workflows[i], job)
  {
    hide SomeRuleMatches, WorkflowMatches;
    if workflows != [] {
      var rest := workflows[1..];
      FirstMatchDecides(rest, job);
      if WorkflowMatches(workflows[0], job) {
        assert FirstMatch(workflows, job, 0);
      } else {
        if i: nat :| FirstMatch(rest, job, i) && Approves(rest[i], job) {
          assert FirstMatch(workflows, job, i + 1) && workflows[i + 1] == rest[i];
        }
        if i: nat :| FirstMatch(workflows, job, i) && Approves(workflows[i], job) {
          assert i > 0 && workflows[i] == rest[i - 1];
          assert forall j :: 0 <= j < i - 1 ==> rest[j] == workflows[j + 1];
          assert FirstMatch(rest, job, i - 1);
        }
      }
    }
  }

  /** All matching entries give the same verdict. */
  ghost predicate Unanimous(workflows: seq<Config.TrustedWorkflow>, job: ObservedJob) {
    forall v, w :: v in workflows && w in workflows && WorkflowMatches(v, job) && WorkflowMatches(w, job) ==>
      SomeRuleMatches(v.rules, job) == SomeRuleMatches(w.rules, job)
  }

  lemma {:induction false} UnanimousVerdict(workflows: seq<Config.TrustedWorkflow>, job: ObservedJob)
    requires Unanimous(workflows, job)
    ensures Judge(workflows, job).allowed <==> exists w :: w in workflows && Approves(w, job)
  {
    hide SomeRuleMatches, WorkflowMatches;
    if workflows != [] {
      assert workflows == [workflows[0]] + workflows[1..];
      assert workflows[0] in workflows;
      UnanimousVerdict(workflows[1..], job);
    }
  }

  /** With entries of one kind a validated policy decides "some workflow and some rule match", and all entries
      that match a job agree. */
  lemma {:induction false} OneKindDecision(workflows: seq<Config.TrustedWorkflow>, labels: seq<string>,
                                           job: ObservedJob, byID: bool)
    requires Config.ValidWorkflows(workflows, labels)
    requires forall w :: w in workflows ==> ByID(w) == byID
    ensures Judge(workflows, job).allowed <==> exists w :: w in workflows && Approves(w, job)
    ensures Unanimous(workflows, job)
  {
    hide SomeRuleMatches, WorkflowMatches, Config.ValidWorkflows;
    forall v, w | v in workflows && w in workflows && WorkflowMatches(v, job) && WorkflowMatches(w, job)
      ensures v == w
    {
      var i :| 0 <= i < |workflows| && workflows[i] == v;
      var j :| 0 <= j < |workflows| && workflows[j] == w;
      AtMostOneOfEachKind(workflows, labels, job, i, j);
    }
    UnanimousVerdict(workflows, job);
  }

  /** Moving the entry at `i` to the front: the rearrangement that decides whether order matters. */
  function ToFront<T>(s: seq<T>, i: nat): (r: seq<T>)
    requires i < |s|
    ensures multiset(r) == multiset(s) && r[0] == s[i]
  {
    assert s == s[..i] + [s[i]] + s[i + 1..];
    [s[i]] + s[..i] + s[i + 1..]
  }

  /** The order of entries is irrelevant to a job exactly when all entries matching it agree. */
  lemma {:induction false} OrderIrrelevantIff(workflows: seq<Config.TrustedWorkflow>, job: ObservedJob)
    ensures Unanimous(workflows, job) <==>
            forall others :: multiset(others) == multiset(workflows) ==>
              Judge(others, job).allowed == Judge(workflows, job).allowed
  {
    hide SomeRuleMatches, WorkflowMatches;
    if Unanimous(workflows, job) {
      forall others | multiset(others) == multiset(workflows)
        ensures Judge(others, job).allowed == Judge(workflows, job).allowed
      {
        SameMembers(others, workflows);
        UnanimousVerdict(workflows, job);
        UnanimousVerdict(others, job);
      }
    } else {
      var v, w :| v in workflows && w in workflows && WorkflowMatches(v, job) && WorkflowMatches(w, job)
                  && SomeRuleMatches(v.rules, job) != SomeRuleMatches(w.rules, job);
      var i :| 0 <= i < |workflows| && workflows[i] == v;
      var j :| 0 <= j < |workflows| && workflows[j] == w;
      FrontDecides(workflows, job, i);
      FrontDecides(workflows, job, j);
    }
  }

  /** So rearranging a validated policy of one kind never changes a decision. */
  lemma {:induction false} OneKindOrderIrrelevant(workflows: seq<Config.TrustedWorkflow>,
                                                  others: seq<Config.TrustedWorkflow>,
                                                  labels: seq<string>, job: ObservedJob, byID: bool)
    requires Config.ValidWorkflows(workflows, labels) && (forall w :: w in workflows ==> ByID(w) == byID)
    requires multiset(others) == multiset(workflows)
    ensures Judge(others, job).allowed == Judge(workflows, job).allowed
  {
    hide Judge, Unanimous, Config.ValidWorkflows;
    OneKindDecision(workflows, labels, job, byID);
    OrderIrrelevantIff(workflows, job);
  }

  lemma {:induction false} FrontDecides(workflows: seq<Config.TrustedWorkflow>, job: ObservedJob, i: nat)
    requires i < |workflows| && WorkflowMatches(workflows[i], job)
    ensures Judge(ToFront(workflows, i), job).allowed == SomeRuleMatches(workflows[i].rules, job)
  {
    hide SomeRuleMatches, WorkflowMatches;
  }

  lemma {:induction false} SameMembers<T>(a: seq<T>, b: seq<T>)
    requires multiset(a) == multiset(b)
    ensures forall x :: x in a <==> x in b
  {
    forall x ensures x in a <==> x in b {
      assert x in multiset(a) <==> x in multiset(b);
    }
  }

  /** Rearranging the rules inside an entry never changes its verdict. */
  lemma {:induction false} RuleOrderIrrelevant(rules: seq<Config.AuthorizationRule>,
                                               others: seq<Config.AuthorizationRule>, job: ObservedJob)
    requires multiset(rules) == multiset(others)
    ensures SomeRuleMatches(rules, job) == SomeRuleMatches(others, job)
  {
    hide RuleMatches;
    SameMembers(rules, others);
    if i :| 0 <= i < |rules| && RuleMatches(rules[i], job) {
      assert rules[i] in others;
    }
    if i :| 0 <= i < |others| && RuleMatches(others[i], job) {
      assert others[i] in rules;
    }
  }
}
