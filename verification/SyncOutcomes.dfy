/** What a sync has to leave on the remotes and report, and what a status has to say
    (server/src/backup_jobs.rs). */
module SyncOutcomes {
  import opened BackupJobs
  import opened BackupPlan
  import opened JobComparison
  import opened JobPayload
  import opened JobSync
  import opened Ordering
  import opened RemoteEncoding
  import opened Wrappers

  /** What writing a job has to leave: every key of a payload that says what it should, of an existing job all
      other keys but those that would widen or narrow the selection, and of a new one the derived id. */
  ghost predicate WrittenMeans(existing: Option<Record>, job: BackupJob, vmids: seq<nat>, storage: string, r: Record) {
    exists payload: Record ::
      && PayloadMeans(job, vmids, storage, payload)
      && forall key ::
        Get(r, key) == if key in payload then Some(payload[key]) else KeptKey(existing, "pdm-" + job.id, key)
  }

  /** What a key that is not written becomes. */
  function KeptKey(existing: Option<Record>, id: string, key: Key): Option<Json> {
    match existing
    case Some(record) =>
      if key == KAll || key == KPool || key == KExclude || key == KNode then None else Get(record, key)
    case None => if key == KId then Some(String(id)) else None
  }

  lemma WrittenDoes(existing: Option<Record>, job: BackupJob, plan: RemotePlan, storage: string)
    ensures WrittenMeans(existing, job, plan.vmids, storage, Written(existing, job, plan, storage))
  {
    var payload := Desired(job, plan, storage);
    DesiredMeans(job, plan, storage);
    DesiredKeys(job, plan, storage);
    forall key
      ensures Get(Written(existing, job, plan, storage), key)
              == if key in payload then Some(payload[key]) else KeptKey(existing, "pdm-" + job.id, key)
    {
      DeletedAre(key);
    }
  }

  lemma DeletedAre(key: Key)
    ensures key in DELETED_KEYS <==> key == KAll || key == KPool || key == KExclude || key == KNode
  {}

  /** All calls that applying a job makes to a remote succeed. */
  predicate CallsSucceed(env: Env, remote: string, jobId: string) {
    (remote, jobId) in env.storages && (remote, jobId) in env.lists && (remote, jobId) in env.changes
  }

  /** What a sync has to do to a job of a configured remote. The derived job is written if the remote is planned, and
      removed if not, as far as the calls succeed; every other job stays. */
  ghost predicate SyncMeans(w: World, env: Env, job: BackupJob, plan: JobPlan, remote: string, id: string,
                            after: Option<Record>) {
    var before := Lookup(w, remote, id);
    if remote !in w || id != "pdm-" + job.id then after == before
    else if remote in plan then
      if CallsSucceed(env, remote, job.id) then
        after.Some? && WrittenMeans(before, job, plan[remote].vmids, env.storages[(remote, job.id)], after.value)
      else after == before
    else if (remote, job.id) in env.lists && (remote, job.id) in env.changes then after == None
    else after == before
  }

  lemma SyncDoes(w: World, env: Env, job: BackupJob, plan: JobPlan, remote: string, id: string)
    ensures SyncMeans(w, env, job, plan, remote, id, Lookup(SyncedWorld(w, env, job, plan), remote, id))
  {
    DerivedText(job.id);
    if remote in w && remote in plan && CallsSucceed(env, remote, job.id) {
      WrittenDoes(Lookup(w, remote, id), job, plan[remote], env.storages[(remote, job.id)]);
    }
  }

  /** `from` picks the entries of `ids` that satisfy `pick`, in order. */
  ghost predicate Picks(ids: seq<string>, pick: string -> bool, from: seq<nat>) {
    && Ascending(from) && (forall i :: 0 <= i < |from| ==> from[i] < |ids|)
    && forall j: nat :: j < |ids| ==> (j in from <==> pick(ids[j]))
  }

  lemma PicksMore(ids: seq<string>, pick: string -> bool, before: seq<nat>) returns (from: seq<nat>)
    requires ids != [] && Picks(ids[..|ids| - 1], pick, before)
    ensures Picks(ids, pick, from)
    ensures from == if pick(ids[|ids| - 1]) then before + [|ids| - 1] else before
  {
    var k: nat := |ids| - 1;
    from := if pick(ids[k]) then before + [k] else before;
    assert forall j :: 0 <= j < k ==> ids[..k][j] == ids[j];
    assert forall j: nat :: j in from <==> j in before || (j == k && pick(ids[k]));
  }

  /** What a sync has to report of a planned remote. */
  ghost predicate SyncEntryMeans(env: Env, job: BackupJob, plan: JobPlan, remote: string, s: Status)
    requires remote in plan
  {
    && s.remote == remote && s.guestCount == |plan[remote].vmids|
    && s.state == (if CallsSucceed(env, remote, job.id) then Synced else Failed)
    && s.storage == if CallsSucceed(env, remote, job.id) then Some(env.storages[(remote, job.id)])
                    else plan[remote].storage
  }

  /** A sync reports exactly the configured remotes that are planned, in their order. */
  lemma {:induction false} SyncStatusMeans(ids: seq<string>, env: Env, job: BackupJob, plan: JobPlan)
    returns (from: seq<nat>)
    ensures Picks(ids, r => r in plan, from) && |SyncStatus(ids, env, job, plan)| == |from|
    ensures forall i :: 0 <= i < |from| ==>
      ids[from[i]] in plan && SyncEntryMeans(env, job, plan, ids[from[i]], SyncStatus(ids, env, job, plan)[i])
  {
    from := [];
    if ids != [] {
      var k := |ids| - 1;
      var before := SyncStatusMeans(ids[..k], env, job, plan);
      from := PicksMore(ids, r => r in plan, before);
    }
  }

  /** A status reports exactly the configured remotes that are not planned, list their jobs and have the derived job,
      in their order. */
  predicate CarriesStale(seen: World, env: Env, job: BackupJob, plan: JobPlan, remote: string) {
    remote !in plan && (remote, job.id) in env.lists && remote in seen && "pdm-" + job.id in seen[remote]
  }

  lemma {:induction false} StaleMeans(ids: seq<string>, seen: World, env: Env, job: BackupJob, plan: JobPlan)
    returns (from: seq<nat>)
    ensures Picks(ids, r => CarriesStale(seen, env, job, plan, r), from)
    ensures |StaleEntries(ids, seen, env, job, plan)| == |from|
    ensures forall i :: 0 <= i < |from| ==>
      StaleEntries(ids, seen, env, job, plan)[i] == Status(ids[from[i]], OutOfSync, 0, None)
  {
    from := [];
    if ids != [] {
      var k := |ids| - 1;
      DerivedText(job.id);
      var before := StaleMeans(ids[..k], seen, env, job, plan);
      from := PicksMore(ids, r => CarriesStale(seen, env, job, plan, r), before);
    }
  }

  /** What a status has to say of a planned remote: an error without a storage or a list of its jobs, missing without
      the derived job, and else in sync exactly if that does what is wanted. */
  lemma PlannedEntryMeans(seen: World, env: Env, job: BackupJob, plan: JobPlan, remote: string)
    requires remote in plan && AreVmids(plan[remote].vmids)
    ensures var s := PlannedEntry(seen, env, job, plan, remote);
      var resolves, lists := (remote, job.id) in env.storages, remote in seen && (remote, job.id) in env.lists;
      && s.remote == remote && s.guestCount == |plan[remote].vmids|
      && s.storage == (if resolves then Some(env.storages[(remote, job.id)]) else plan[remote].storage)
      && s.state == if !resolves || !lists then Failed
                    else if "pdm-" + job.id !in seen[remote] then Missing
                    else if DoesWhatIsWanted(seen[remote]["pdm-" + job.id], job, plan[remote].vmids,
                                             env.storages[(remote, job.id)]) then Synced
                    else OutOfSync
  {
    var id := "pdm-" + job.id;
    DerivedText(job.id);
    if (remote, job.id) in env.storages && remote in seen && (remote, job.id) in env.lists && id in seen[remote] {
      InSyncExactly(seen[remote][id], job, plan[remote], env.storages[(remote, job.id)]);
    }
  }

  /** After a sync of a plan in which every call succeeds, what a configured planned remote reports of the derived job
      does what is wanted: it backs up the planned guests and is enabled exactly if the job is. */
  lemma SyncedJobDoesWhatIsWanted(w: World, env: Env, job: BackupJob, guests: seq<CachedGuest>, plan: JobPlan,
                                  seen: World, r: string)
    requires IsPlan(job, guests, plan) && AllCallsSucceed(w, env, job, plan)
    requires ReportedWorld(SyncedWorld(w, env, job, plan), seen) && r in plan && r in w
    ensures r in seen && "pdm-" + job.id in seen[r] && (r, job.id) in env.storages
    ensures DoesWhatIsWanted(seen[r]["pdm-" + job.id], job, plan[r].vmids, env.storages[(r, job.id)])
  {
    var id, storage := DerivedJobId(job.id), env.StorageOf(r, job);
    DerivedText(job.id);
    PlannedAreVmids(job, guests, plan, r);
    assert FindJob(SyncedWorld(w, env, job, plan)[r], id) == SyncedJob(FindJob(w[r], id), env, job, plan, r);
    WrittenIsInSync(job, plan[r], storage, FindJob(w[r], id), seen[r][id]);
    InSyncExactly(seen[r][id], job, plan[r], storage);
  }
}
