/** Materializing jobs on the PVE remotes and reporting how they are materialized
    (server/src/backup_jobs.rs).

    A remote is a map from job ids to jobs. How the calls to a remote end is given from outside; a call that
    fails changes nothing. */
module JobSync {
  import opened BackupJobs
  import opened BackupMigration
  import opened BackupPlan
  import opened JobPayload
  import opened Ordering
  import opened RemoteEncoding
  import opened Sequences
  import opened Wrappers

  type Jobs = map<string, Record>

  /** The configured PVE remotes and the jobs they hold. */
  type World = map<string, Jobs>

  /** How the calls end that a job makes to a remote, by remote and job id: the storage it resolves to, if it
      does, whether the remote lists its jobs, and whether it carries out a change. */
  datatype Env = Env(storages: map<(string, string), string>, lists: set<(string, string)>,
                     changes: set<(string, string)>) {
    predicate Resolves(remote: string, job: BackupJob) { (remote, job.id) in storages }

    function StorageOf(remote: string, job: BackupJob): string
      requires Resolves(remote, job)
    {
      storages[(remote, job.id)]
    }

    predicate Lists(remote: string, jobId: string) { (remote, jobId) in lists }

    predicate Changes(remote: string, jobId: string) { (remote, jobId) in lists && (remote, jobId) in changes }

    predicate Applies(remote: string, job: BackupJob) { Resolves(remote, job) && Changes(remote, job.id) }
  }

  datatype SyncState = Synced | OutOfSync | Missing | Failed

  datatype Status = Status(remote: string, state: SyncState, guestCount: nat, storage: Option<string>)

  function FindJob(jobs: Jobs, id: string): Option<Record> {
    if id in jobs then Some(jobs[id]) else None
  }

  function Lookup(w: World, remote: string, id: string): Option<Record> {
    if remote in w then FindJob(w[remote], id) else None
  }

  /** What one sync does to the derived job on one remote. */
  function SyncedJob(existing: Option<Record>, env: Env, job: BackupJob, plan: JobPlan, remote: string)
    : Option<Record>
  {
    if remote in plan then
      if env.Applies(remote, job) then Some(Written(existing, job, plan[remote], env.StorageOf(remote, job)))
      else existing
    else if env.Changes(remote, job.id) then None
    else existing
  }

  function SetJob(jobs: Jobs, id: string, record: Option<Record>): Jobs {
    if record.Some? then jobs[id := record.value] else jobs - {id}
  }

  function SyncedRemote(jobs: Jobs, env: Env, job: BackupJob, plan: JobPlan, remote: string): Jobs {
    var id := DerivedJobId(job.id);
    SetJob(jobs, id, SyncedJob(FindJob(jobs, id), env, job, plan, remote))
  }

  function SyncedWorld(w: World, env: Env, job: BackupJob, plan: JobPlan): World {
    map remote | remote in w :: SyncedRemote(w[remote], env, job, plan, remote)
  }

  /** The status a sync reports: one entry per configured remote the plan covers. */
  function SyncStatus(ids: seq<string>, env: Env, job: BackupJob, plan: JobPlan): seq<Status> {
    if ids == [] then []
    else
      var k := |ids| - 1;
      SyncStatus(ids[..k], env, job, plan)
      + if ids[k] in plan then [SyncEntry(env, job, plan, ids[k])] else []
  }

  function SyncEntry(env: Env, job: BackupJob, plan: JobPlan, remote: string): Status
    requires remote in plan
  {
    if env.Applies(remote, job) then Status(remote, Synced, |plan[remote].vmids|, Some(env.StorageOf(remote, job)))
    else Status(remote, Failed, |plan[remote].vmids|, plan[remote].storage)
  }

  /** The status of a planned remote; one that is not configured cannot be asked. */
  ghost function PlannedEntry(seen: World, env: Env, job: BackupJob, plan: JobPlan, remote: string): Status
    requires remote in plan
  {
    var count := |plan[remote].vmids|;
    if !env.Resolves(remote, job) then Status(remote, Failed, count, plan[remote].storage)
    else if remote !in seen || !env.Lists(remote, job.id) then
      Status(remote, Failed, count, Some(env.StorageOf(remote, job)))
    else
      var storage := env.StorageOf(remote, job);
      match Lookup(seen, remote, DerivedJobId(job.id))
      case None => Status(remote, Missing, count, Some(storage))
      case Some(existing) =>
        var state := if InSync(existing, Desired(job, plan[remote], storage)) then Synced else OutOfSync;
        Status(remote, state, count, Some(storage))
  }

  /** The remotes that carry the job although the plan does not cover them. */
  function StaleEntries(ids: seq<string>, seen: World, env: Env, job: BackupJob, plan: JobPlan): seq<Status> {
    if ids == [] then []
    else
      var k := |ids| - 1;
      StaleEntries(ids[..k], seen, env, job, plan)
      + if ids[k] !in plan && env.Lists(ids[k], job.id) && Lookup(seen, ids[k], DerivedJobId(job.id)).Some?
        then [Status(ids[k], OutOfSync, 0, None)] else []
  }

  ghost function PlannedEntries(order: seq<string>, seen: World, env: Env, job: BackupJob, plan: JobPlan)
    : (r: seq<Status>)
    requires forall i :: 0 <= i < |order| ==> order[i] in plan
    ensures |r| == |order|
    ensures forall i :: 0 <= i < |order| ==> r[i] == PlannedEntry(seen, env, job, plan, order[i])
  {
    seq(|order|, i requires 0 <= i < |order| => PlannedEntry(seen, env, job, plan, order[i]))
  }

  class PveRemotes {
    const ids: seq<string>
    var jobs: World

    ghost predicate Valid() reads this {
      Distinct(ids) && forall r :: r in ids <==> r in jobs
    }

    constructor (ids: seq<string>, jobs: World)
      requires Distinct(ids) && forall r :: r in ids <==> r in jobs
      ensures Valid() && this.ids == ids && this.jobs == jobs
    {
      this.ids := ids;
      this.jobs := jobs;
    }

    method ApplyOnRemote(env: Env, remote: string, job: BackupJob, plan: RemotePlan)
      returns (r: Result<string, string>)
      requires remote in jobs
      modifies this
      ensures r == if env.Applies(remote, job) then Ok(env.StorageOf(remote, job)) else Err("unavailable")
      ensures r.Err? ==> jobs == old(jobs)
      ensures r.Ok? ==>
        var id := DerivedJobId(job.id);
        var written := Written(FindJob(old(jobs)[remote], id), job, plan, r.value);
        jobs == old(jobs)[remote := old(jobs)[remote][id := written]]
    {
      if !env.Resolves(remote, job) { return Err("unavailable"); }
      var storage := env.StorageOf(remote, job);
      if !env.Lists(remote, job.id) { return Err("unavailable"); }
      var id := DerivedJobId(job.id);
      var payload := DesiredPayload(job, plan, storage);
      var here := jobs[remote];
      if !env.Changes(remote, job.id) { return Err("unavailable"); }
      if id in here {
        jobs := jobs[remote := here[id := Put(here[id], payload)]];
      } else {
        jobs := jobs[remote := here[id := Post(payload, id)]];
      }
      r := Ok(storage);
    }

    method RemoveOnRemote(env: Env, remote: string, jobId: string) returns (ok: bool)
      requires remote in jobs
      modifies this
      ensures ok <==> env.Lists(remote, jobId)
                      && (DerivedJobId(jobId) in old(jobs)[remote] ==> env.Changes(remote, jobId))
      ensures jobs == if ok then old(jobs)[remote := old(jobs)[remote] - {DerivedJobId(jobId)}] else old(jobs)
    {
      if !env.Lists(remote, jobId) { return false; }
      var id := DerivedJobId(jobId);
      var here := jobs[remote];
      if id !in here {
        assert here - {id} == here && jobs[remote := here] == jobs;
        return true;
      }
      if !env.Changes(remote, jobId) { return false; }
      jobs := jobs[remote := here - {id}];
      ok := true;
    }

    /** Every configured remote ends up with the job the plan asks for or without it, as far as it
        answers, and nothing else on any remote changes. */
    method SyncJob(env: Env, job: BackupJob, guests: seq<CachedGuest>) returns (plan: JobPlan, status: seq<Status>)
      requires Valid()
      modifies this
      ensures Valid() && IsPlan(job, guests, plan)
      ensures jobs == SyncedWorld(old(jobs), env, job, plan)
      ensures status == SyncStatus(ids, env, job, plan)
    {
      plan := BuildPlan(job, guests);
      status := SyncPlan(env, job, plan);
    }

    method SyncPlan(env: Env, job: BackupJob, plan: JobPlan) returns (status: seq<Status>)
      requires Valid()
      modifies this
      ensures Valid() && jobs == SyncedWorld(old(jobs), env, job, plan)
      ensures status == SyncStatus(ids, env, job, plan)
    {
      status := [];
      for i := 0 to |ids|
        invariant PartlySynced(old(jobs), jobs, ids[..i], env, job, plan)
        invariant status == SyncStatus(ids[..i], env, job, plan)
      {
        NextId(ids, i);
        OneMoreSynced(old(jobs), jobs, ids, i, env, job, plan);
        var entry := SyncOnRemote(env, ids[i], job, plan);
        if entry.Some? { status := status + [entry.value]; }
      }
      assert ids[..|ids|] == ids;
      AllSynced(old(jobs), jobs, env, job, plan);
    }

    method SyncOnRemote(env: Env, remote: string, job: BackupJob, plan: JobPlan) returns (entry: Option<Status>)
      requires remote in jobs
      modifies this
      ensures jobs == old(jobs)[remote := SyncedRemote(old(jobs)[remote], env, job, plan, remote)]
      ensures entry == if remote in plan then Some(SyncEntry(env, job, plan, remote)) else None
    {
      SetJobSame(jobs[remote], DerivedJobId(job.id));
      assert jobs[remote := jobs[remote]] == jobs;
      if remote in plan {
        var applied := ApplyOnRemote(env, remote, job, plan[remote]);
        entry := Some(
          if applied.Ok? then Status(remote, Synced, |plan[remote].vmids|, Some(applied.value))
          else Status(remote, Failed, |plan[remote].vmids|, plan[remote].storage));
      } else {
        var removed := RemoveOnRemote(env, remote, job.id);
        entry := None;
      }
    }

    method PlannedStatus(env: Env, job: BackupJob, plan: JobPlan, seen: World, remote: string) returns (entry: Status)
      requires remote in plan
      ensures entry == PlannedEntry(seen, env, job, plan, remote)
    {
      var id := DerivedJobId(job.id);
      entry := Status(remote, Missing, |plan[remote].vmids|, plan[remote].storage);
      if env.Resolves(remote, job) {
        var storage := env.StorageOf(remote, job);
        entry := entry.(storage := Some(storage));
        if remote !in seen || !env.Lists(remote, job.id) {
          entry := entry.(state := Failed);
        } else if id in seen[remote] {
          var desired := DesiredPayload(job, plan[remote], storage);
          var same := IsInSync(seen[remote][id], desired);
          entry := entry.(state := if same then Synced else OutOfSync);
        }
      } else {
        entry := entry.(state := Failed);
      }
    }

    /** Reports every planned remote, in ascending order, and after them the remotes that still carry
        the job; `seen` is what the remotes report of their jobs. */
    method JobStatus(env: Env, job: BackupJob, guests: seq<CachedGuest>, seen: World)
      returns (plan: JobPlan, order: seq<string>, status: seq<Status>)
      requires Valid() && seen.Keys == jobs.Keys
      ensures IsPlan(job, guests, plan)
      ensures SortedBy(StringLe, order) && Distinct(order) && forall r :: r in order <==> r in plan
      ensures forall i :: 0 <= i < |order| ==> order[i] in plan
      ensures status == PlannedEntries(order, seen, env, job, plan) + StaleEntries(ids, seen, env, job, plan)
    {
      plan := BuildPlan(job, guests);
      order := SortedKeys(plan.Keys);
      assert forall i :: 0 <= i < |order| ==> order[i] in order;
      var planned := PlannedStatuses(env, job, plan, seen, order);
      var stale := StaleStatuses(env, job, plan, seen);
      status := planned + stale;
    }

    method PlannedStatuses(env: Env, job: BackupJob, plan: JobPlan, seen: World, order: seq<string>)
      returns (status: seq<Status>)
      requires forall i :: 0 <= i < |order| ==> order[i] in plan
      ensures status == PlannedEntries(order, seen, env, job, plan)
    {
      status := [];
      for i := 0 to |order|
        invariant |status| == i
        invariant forall k :: 0 <= k < i ==> status[k] == PlannedEntry(seen, env, job, plan, order[k])
      {
        var entry := PlannedStatus(env, job, plan, seen, order[i]);
        status := status + [entry];
      }
    }

    method StaleStatuses(env: Env, job: BackupJob, plan: JobPlan, seen: World) returns (status: seq<Status>)
      ensures status == StaleEntries(ids, seen, env, job, plan)
    {
      status := [];
      for i := 0 to |ids|
        invariant status == StaleEntries(ids[..i], seen, env, job, plan)
      {
        assert ids[..i + 1][..i] == ids[..i];
        if ids[i] in plan { continue; }
        if env.Lists(ids[i], job.id) && ids[i] in seen && DerivedJobId(job.id) in seen[ids[i]] {
          status := status + [Status(ids[i], OutOfSync, 0, None)];
        }
      }
      assert ids[..|ids|] == ids;
    }

    method SortedKeys(keys: set<string>) returns (order: seq<string>)
      ensures SortedBy(StringLe, order) && Distinct(order) && forall r :: r in order <==> r in keys
    {
      var left, collected := keys, [];
      while left != {}
        invariant left <= keys && Distinct(collected)
        invariant forall r :: r in collected <==> r in keys && r !in left
      {
        var r :| r in left;
        collected := collected + [r];
        left := left - {r};
      }
      order := Sort(StringLe, collected);
      StringOrder();
      SortSorts(StringLe, collected);
      DistinctRearranged(collected, order);
      assert forall r :: r in order <==> r in multiset(order);
      assert forall r :: r in collected <==> r in multiset(collected);
    }
  }

  lemma NextId(ids: seq<string>, i: nat)
    requires i < |ids| && Distinct(ids)
    ensures ids[i] in ids && ids[i] !in ids[..i] && ids[..i + 1][..i] == ids[..i]
    ensures forall r :: r in ids[..i + 1] <==> r in ids[..i] || r == ids[i]
  {
    assert ids[..i + 1] == ids[..i] + [ids[i]];
  }

  ghost predicate PartlySynced(before: World, after: World, done: seq<string>, env: Env, job: BackupJob,
                               plan: JobPlan)
  {
    && after.Keys == before.Keys
    && forall r :: r in after ==>
      after[r] == if r in done then SyncedRemote(before[r], env, job, plan, r) else before[r]
  }

  lemma OneMoreSynced(before: World, after: World, ids: seq<string>, i: nat, env: Env, job: BackupJob, plan: JobPlan)
    requires i < |ids| && Distinct(ids) && ids[i] in after && PartlySynced(before, after, ids[..i], env, job, plan)
    ensures PartlySynced(before, after[ids[i] := SyncedRemote(after[ids[i]], env, job, plan, ids[i])], ids[..i + 1],
                         env, job, plan)
  {
    NextId(ids, i);
  }

  lemma AllSynced(before: World, after: World, env: Env, job: BackupJob, plan: JobPlan)
    requires after.Keys == before.Keys
    requires forall r :: r in after ==> after[r] == SyncedRemote(before[r], env, job, plan, r)
    ensures after == SyncedWorld(before, env, job, plan)
  {}

  lemma SetJobSame(jobs: Jobs, id: string)
    ensures SetJob(jobs, id, FindJob(jobs, id)) == jobs
  {}

  /** Every configured remote lists and changes its jobs, and the storage of every planned one resolves. */
  ghost predicate AllCallsSucceed(w: World, env: Env, job: BackupJob, plan: JobPlan) {
    forall r :: r in w ==> env.Changes(r, job.id) && (r in plan ==> env.Resolves(r, job))
  }

  /** What the remotes may report of the jobs they hold. */
  ghost predicate ReportedWorld(w: World, seen: World) {
    && seen.Keys == w.Keys
    && forall r :: r in w ==> seen[r].Keys == w[r].Keys && forall id :: id in w[r] ==> Reported(w[r][id], seen[r][id])
  }

  lemma StaleNone(ids: seq<string>, seen: World, env: Env, job: BackupJob, plan: JobPlan)
    requires forall i :: 0 <= i < |ids| && ids[i] !in plan ==> Lookup(seen, ids[i], DerivedJobId(job.id)).None?
    ensures StaleEntries(ids, seen, env, job, plan) == []
  {
    if ids != [] { StaleNone(ids[..|ids| - 1], seen, env, job, plan); }
  }

  /** Every remote holds the derived job as a sync of `w` leaves it. */
  ghost predicate Materialized(w: World, after: World, env: Env, job: BackupJob, plan: JobPlan) {
    var id := DerivedJobId(job.id);
    after.Keys == w.Keys
    && forall r :: r in w ==> FindJob(after[r], id) == SyncedJob(FindJob(w[r], id), env, job, plan, r)
  }

  /** No remote is stale, and a planned remote is synced exactly when it is configured, and else an error. */
  ghost predicate ReportedSynced(ids: seq<string>, seen: World, env: Env, job: BackupJob, plan: JobPlan) {
    && StaleEntries(ids, seen, env, job, plan) == []
    && forall r :: r in plan ==>
      PlannedEntry(seen, env, job, plan, r).state == if r in ids then Synced else Failed
  }

  /** After a sync in which every call succeeds, however the remotes encode the jobs: no remote is stale,
      and a planned remote is reported as synced exactly when it is configured as a PVE remote; a guest
      entry on a remote that is gone makes the status an error although the sync reported none. */
  lemma SyncThenStatus(w: World, ids: seq<string>, env: Env, job: BackupJob, plan: JobPlan, seen: World)
    requires AllCallsSucceed(w, env, job, plan)
    requires ReportedWorld(SyncedWorld(w, env, job, plan), seen)
    requires forall r :: r in ids <==> r in w
    ensures ReportedSynced(ids, seen, env, job, plan)
  {
    MaterializedThenStatus(w, SyncedWorld(w, env, job, plan), ids, env, job, plan, seen);
  }

  /** A guest on a remote that is not configured: the sync reports nothing of it, the status an error. */
  lemma GoneRemoteIsError(plan: JobPlan, env: Env)
    requires IsPlan(OneGuestJob(Guest("gone", 100)), [], plan)
    ensures var job := OneGuestJob(Guest("gone", 100));
      && SyncStatus([], env, job, plan) == []
      && "gone" in plan && PlannedEntry(map[], env, job, plan, "gone").state == Failed
  {
    var job := OneGuestJob(Guest("gone", 100));
    assert ExplicitlyPlanned(job, [], "gone", 100) by { assert job.guests[0].vmid == 100; }
    assert Planned(job, [], "gone", 100);
  }

  lemma MaterializedThenStatus(w: World, after: World, ids: seq<string>, env: Env, job: BackupJob, plan: JobPlan,
                               seen: World)
    requires AllCallsSucceed(w, env, job, plan) && Materialized(w, after, env, job, plan)
    requires ReportedWorld(after, seen)
    requires forall r :: r in ids <==> r in w
    ensures ReportedSynced(ids, seen, env, job, plan)
  {
    var id := DerivedJobId(job.id);
    forall i | 0 <= i < |ids| && ids[i] !in plan ensures Lookup(seen, ids[i], id).None? {
      assert ids[i] in ids;
    }
    StaleNone(ids, seen, env, job, plan);
    forall r | r in plan && r in w ensures PlannedEntry(seen, env, job, plan, r).state == Synced {
      assert id in after[r] && id in seen[r];
      WrittenIsInSync(job, plan[r], env.StorageOf(r, job), FindJob(w[r], id), seen[r][id]);
    }
  }

  /** What a sync leaves of a derived job, a second sync leaves alone. */
  lemma SyncedJobTwice(existing: Option<Record>, env: Env, job: BackupJob, plan: JobPlan, remote: string)
    ensures var once := SyncedJob(existing, env, job, plan, remote);
      SyncedJob(once, env, job, plan, remote) == once
  {
    if remote in plan && env.Applies(remote, job) {
      WriteIdempotent(job, plan[remote], env.StorageOf(remote, job), existing);
    }
  }

  /** A second sync with the same plan changes nothing. */
  lemma SyncIdempotent(w: World, env: Env, job: BackupJob, plan: JobPlan)
    ensures SyncedWorld(SyncedWorld(w, env, job, plan), env, job, plan) == SyncedWorld(w, env, job, plan)
  {
    var once := SyncedWorld(w, env, job, plan);
    forall r | r in w ensures SyncedRemote(once[r], env, job, plan, r) == once[r] {
      var id := DerivedJobId(job.id);
      SyncedJobTwice(FindJob(w[r], id), env, job, plan, r);
      SetJobSame(once[r], id);
    }
  }
}
