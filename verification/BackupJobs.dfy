/** Unified backup jobs and the ids of the jobs they become on the remotes
    (lib/pdm-api-types/src/backup_jobs.rs). */
module BackupJobs {
  import opened Machine
  import opened Wrappers

  type Vmid = n: nat | n < U32

  /** One explicitly selected guest. */
  datatype Guest = Guest(remote: string, vmid: Vmid)

  datatype Target = Target(remote: string, storage: string)

  datatype BackupJob = BackupJob(
    id: string,
    comment: Option<string>,
    disable: Option<bool>,
    schedule: string,
    defaultStorage: Option<string>,
    guests: seq<Guest>,
    targets: seq<Target>,
    tagFilters: seq<string>,
    tagFilterRemotes: seq<string>,
    mode: Option<string>,
    compress: Option<string>,
    bwlimit: Option<nat>,
    pruneBackups: Option<string>,
    notesTemplate: Option<string>,
    mailto: Option<string>,
    mailnotification: Option<string>,
    followMigrations: Option<bool>)
  {
    predicate FollowsMigrations() { followMigrations != Some(false) }

    function StorageFor(remote: string): Option<string> {
      match FindTarget(targets, remote)
      case Some(target) => Some(target.storage)
      case None => defaultStorage
    }
  }

  function FindTarget(targets: seq<Target>, remote: string): Option<Target> {
    if targets == [] then None
    else if targets[0].remote == remote then Some(targets[0])
    else FindTarget(targets[1..], remote)
  }

  /** The first target override for a remote decides; the default storage is used only without one. */
  lemma {:induction false} FirstTargetDecides(job: BackupJob, remote: string, i: nat)
    requires i <= |job.targets| && forall k :: 0 <= k < i ==> job.targets[k].remote != remote
    requires i < |job.targets| ==> job.targets[i].remote == remote
    ensures job.StorageFor(remote) == if i < |job.targets| then Some(job.targets[i].storage) else job.defaultStorage
  {
    FindTargetAt(job.targets, remote, i);
  }

  lemma {:induction false} FindTargetAt(targets: seq<Target>, remote: string, i: nat)
    requires i <= |targets| && forall k :: 0 <= k < i ==> targets[k].remote != remote
    requires i < |targets| ==> targets[i].remote == remote
    ensures FindTarget(targets, remote) == if i < |targets| then Some(targets[i]) else None
  {
    if i > 0 { FindTargetAt(targets[1..], remote, i - 1); }
  }

  const DERIVED_JOB_PREFIX := "pdm-"

  function DerivedJobId(jobId: string): string { DERIVED_JOB_PREFIX + jobId }

  /** `strip_prefix`. */
  function JobIdFromDerived(derived: string): Option<string> {
    if DERIVED_JOB_PREFIX <= derived then Some(derived[|DERIVED_JOB_PREFIX|..]) else None
  }

  /** The two are inverse to each other: a remote's job belongs to at most one unified job. */
  lemma DerivedInverse(derived: string, jobId: string)
    ensures JobIdFromDerived(derived) == Some(jobId) <==> derived == DerivedJobId(jobId)
  {
    if JobIdFromDerived(derived) == Some(jobId) {
      assert derived == derived[..|DERIVED_JOB_PREFIX|] + derived[|DERIVED_JOB_PREFIX|..];
    }
  }

  lemma DerivedText(jobId: string)
    ensures DerivedJobId(jobId) == "pdm-" + jobId
  {}

  lemma DerivedInjective(a: string, b: string)
    requires DerivedJobId(a) == DerivedJobId(b)
    ensures a == b
  {
    DerivedInverse(DerivedJobId(a), a);
    DerivedInverse(DerivedJobId(a), b);
  }
}
