/** Jobs as the participant sees them (internal/participant/types.go) and their identity. */
module Jobs {
  import opened Text

  datatype Repository = Repository(owner: string, name: string)

  /** Times are integers on one clock; identifiers are the server's integers. */
  datatype ObservedJob = ObservedJob(
    repository: Repository,
    serverRepository: string,
    repositoryPrivate: bool,
    runID: int,
    jobRunID: int,
    jobID: int,
    status: string,
    labels: seq<string>,
    workflowID: int,
    workflowPath: string,
    event: string,
    actor: string,
    triggeringActor: string,
    firstSeenAt: int)

  function Slug(repository: Repository): string {
    Lower(repository.owner + "/" + repository.name)
  }

  function JobKey(job: ObservedJob): (key: string)
    ensures key != ""
  {
    Slug(job.repository) + ":" + Decimal(job.jobID)
  }

  /** The tracking key is exactly the case-insensitive repository together with the job ID. */
  lemma {:induction false} JobKeyIdentity(a: ObservedJob, b: ObservedJob)
    ensures JobKey(a) == JobKey(b) <==>
              && Lower(a.repository.owner + "/" + a.repository.name) ==
                Lower(b.repository.owner + "/" + b.repository.name)
              && a.jobID == b.jobID
  {
    if JobKey(a) == JobKey(b) {
      var p, q := Slug(a.repository), Slug(b.repository);
      var x, y := Decimal(a.jobID), Decimal(b.jobID);
      assert p + [':'] + x == q + [':'] + y;
      LastSeparator(p, q, x, y, ':');
      DecimalInjective(a.jobID, b.jobID);
    }
  }
}
