/** Re-materializing every configured job (`reconcile_all` in server/src/backup_jobs.rs). */
module Reconcile {
  import opened BackupJobs
  import opened BackupMigration
  import opened BackupPlan
  import opened JobSync
  import opened Sequences

  datatype PlannedJob = PlannedJob(job: BackupJob, plan: JobPlan)

  /** The remotes after the jobs have been synced one after the other. */
  function SyncedAll(w: World, env: Env, todo: seq<PlannedJob>): World {
    if todo == [] then w
    else
      var k := |todo| - 1;
      SyncedWorld(SyncedAll(w, env, todo[..k]), env, todo[k].job, todo[k].plan)
  }

  ghost predicate DistinctIds(todo: seq<PlannedJob>) {
    forall i, j :: 0 <= i < j < |todo| ==> todo[i].job.id != todo[j].job.id
  }

  /** `id` is the id of no job's derived job. */
  ghost predicate Foreign(todo: seq<PlannedJob>, id: string) {
    forall i :: 0 <= i < |todo| ==> DerivedJobId(todo[i].job.id) != id
  }

  lemma SyncedAt(w: World, env: Env, job: BackupJob, plan: JobPlan, remote: string, id: string)
    ensures Lookup(SyncedWorld(w, env, job, plan), remote, id)
            == if remote in w && id == DerivedJobId(job.id)
               then SyncedJob(Lookup(w, remote, id), env, job, plan, remote)
               else Lookup(w, remote, id)
  {}

  lemma SameRemotes(w: World, env: Env, todo: seq<PlannedJob>)
    ensures SyncedAll(w, env, todo).Keys == w.Keys
  {
    if todo != [] { SameRemotes(w, env, todo[..|todo| - 1]); }
  }

  /** A remote's job that no configured job stands for is left as it is. */
  lemma {:induction false} ForeignUntouched(w: World, env: Env, todo: seq<PlannedJob>, remote: string, id: string)
    requires Foreign(todo, id)
    ensures Lookup(SyncedAll(w, env, todo), remote, id) == Lookup(w, remote, id)
  {
    if todo != [] {
      var k := |todo| - 1;
      ForeignUntouched(w, env, todo[..k], remote, id);
      SyncedAt(SyncedAll(w, env, todo[..k]), env, todo[k].job, todo[k].plan, remote, id);
    }
  }

  /** The derived job of a configured job ends up as if that job alone had been synced. */
  lemma {:induction false} OnlyItsOwnSync(w: World, env: Env, todo: seq<PlannedJob>, i: nat, remote: string)
    requires DistinctIds(todo) && i < |todo| && remote in w
    ensures var id := DerivedJobId(todo[i].job.id);
      Lookup(SyncedAll(w, env, todo), remote, id)
      == SyncedJob(Lookup(w, remote, id), env, todo[i].job, todo[i].plan, remote)
  {
    var k := |todo| - 1;
    var id := DerivedJobId(todo[i].job.id);
    SameRemotes(w, env, todo[..k]);
    SyncedAt(SyncedAll(w, env, todo[..k]), env, todo[k].job, todo[k].plan, remote, id);
    if i == k {
      forall j | 0 <= j < k ensures DerivedJobId(todo[..k][j].job.id) != id {
        if DerivedJobId(todo[j].job.id) == id { DerivedInjective(todo[j].job.id, todo[k].job.id); }
      }
      ForeignUntouched(w, env, todo[..k], remote, id);
    } else {
      if DerivedJobId(todo[k].job.id) == id { DerivedInjective(todo[i].job.id, todo[k].job.id); }
      OnlyItsOwnSync(w, env, todo[..k], i, remote);
    }
  }

  lemma SameWorld(a: World, b: World)
    requires a.Keys == b.Keys
    requires forall r, id :: Lookup(a, r, id) == Lookup(b, r, id)
    ensures a == b
  {
    forall r | r in a ensures a[r] == b[r] {
      forall id ensures id in a[r] <==> id in b[r] { assert Lookup(a, r, id) == Lookup(b, r, id); }
      forall id | id in a[r] ensures a[r][id] == b[r][id] { assert Lookup(a, r, id) == Lookup(b, r, id); }
    }
  }

  /** The order in which the jobs are synced does not matter. */
  lemma OrderDoesNotMatter(w: World, env: Env, todo: seq<PlannedJob>, other: seq<PlannedJob>)
    requires DistinctIds(todo) && multiset(todo) == multiset(other)
    ensures SyncedAll(w, env, todo) == SyncedAll(w, env, other)
  {
    SameRemotes(w, env, todo);
    SameRemotes(w, env, other);
    DistinctIdsRearranged(todo, other);
    forall r, id ensures Lookup(SyncedAll(w, env, todo), r, id) == Lookup(SyncedAll(w, env, other), r, id) {
      if r in w { SameOutcome(w, env, todo, other, r, id); }
    }
    SameWorld(SyncedAll(w, env, todo), SyncedAll(w, env, other));
  }

  lemma DistinctIdsRearranged(todo: seq<PlannedJob>, other: seq<PlannedJob>)
    requires DistinctIds(todo) && multiset(todo) == multiset(other)
    ensures DistinctIds(other)
  {
    DistinctRearranged(todo, other);
    forall i, j | 0 <= i < j < |other| ensures other[i].job.id != other[j].job.id {
      assert other[i] in multiset(todo) && other[j] in multiset(todo);
      var a :| 0 <= a < |todo| && todo[a] == other[i];
      var b :| 0 <= b < |todo| && todo[b] == other[j];
    }
  }

  lemma SameOutcome(w: World, env: Env, todo: seq<PlannedJob>, other: seq<PlannedJob>, r: string, id: string)
    requires DistinctIds(todo) && DistinctIds(other) && multiset(todo) == multiset(other) && r in w
    ensures Lookup(SyncedAll(w, env, todo), r, id) == Lookup(SyncedAll(w, env, other), r, id)
  {
    if i :| 0 <= i < |todo| && DerivedJobId(todo[i].job.id) == id {
      assert todo[i] in multiset(other);
      var j :| 0 <= j < |other| && other[j] == todo[i];
      OnlyItsOwnSync(w, env, todo, i, r);
      OnlyItsOwnSync(w, env, other, j, r);
    } else {
      forall j | 0 <= j < |other| ensures DerivedJobId(other[j].job.id) != id {
        assert other[j] in multiset(todo);
        var i :| 0 <= i < |todo| && todo[i] == other[j];
      }
      ForeignUntouched(w, env, todo, r, id);
      ForeignUntouched(w, env, other, r, id);
    }
  }

  /** When every call succeeds, a configured PVE remote carries a job's derived job exactly when the
      job's plan covers the remote. */
  lemma CarriedExactlyWherePlanned(w: World, env: Env, todo: seq<PlannedJob>, i: nat, remote: string)
    requires DistinctIds(todo) && i < |todo| && remote in w
    requires AllCallsSucceed(w, env, todo[i].job, todo[i].plan)
    ensures Lookup(SyncedAll(w, env, todo), remote, DerivedJobId(todo[i].job.id)).Some?
            <==> remote in todo[i].plan
  {
    OnlyItsOwnSync(w, env, todo, i, remote);
  }

  lemma OwnSyncMaterializes(w: World, env: Env, todo: seq<PlannedJob>, i: nat)
    requires DistinctIds(todo) && i < |todo|
    ensures Materialized(w, SyncedAll(w, env, todo), env, todo[i].job, todo[i].plan)
  {
    SameRemotes(w, env, todo);
    forall r | r in w
      ensures var id := DerivedJobId(todo[i].job.id);
        FindJob(SyncedAll(w, env, todo)[r], id) == SyncedJob(FindJob(w[r], id), env, todo[i].job, todo[i].plan, r)
    {
      OnlyItsOwnSync(w, env, todo, i, r);
    }
  }

  /** When every call succeeds, after a reconcile the status of every job, however the remotes encode the jobs,
      is: synced on every planned remote that is configured, and stale nowhere. */
  lemma ReconcileThenStatus(w: World, ids: seq<string>, env: Env, todo: seq<PlannedJob>, i: nat, seen: World)
    requires DistinctIds(todo) && i < |todo| && AllCallsSucceed(w, env, todo[i].job, todo[i].plan)
    requires ReportedWorld(SyncedAll(w, env, todo), seen)
    requires forall r :: r in ids <==> r in w
    ensures ReportedSynced(ids, seen, env, todo[i].job, todo[i].plan)
  {
    OwnSyncMaterializes(w, env, todo, i);
    MaterializedThenStatus(w, SyncedAll(w, env, todo), ids, env, todo[i].job, todo[i].plan, seen);
  }

  /** Syncing every job a second time changes no remote. */
  lemma SyncedTwice(w: World, env: Env, todo: seq<PlannedJob>)
    requires DistinctIds(todo)
    ensures SyncedAll(SyncedAll(w, env, todo), env, todo) == SyncedAll(w, env, todo)
  {
    var once := SyncedAll(w, env, todo);
    var twice := SyncedAll(once, env, todo);
    SameRemotes(w, env, todo);
    SameRemotes(once, env, todo);
    forall r, id ensures Lookup(twice, r, id) == Lookup(once, r, id) {
      if r in w {
        if i :| 0 <= i < |todo| && DerivedJobId(todo[i].job.id) == id {
          OnlyItsOwnSync(w, env, todo, i, r);
          OnlyItsOwnSync(once, env, todo, i, r);
          SyncedJobTwice(Lookup(w, r, id), env, todo[i].job, todo[i].plan, r);
        } else {
          ForeignUntouched(once, env, todo, r, id);
        }
      }
    }
    SameWorld(twice, once);
  }

  ghost predicate AllPlanned(todo: seq<PlannedJob>, guests: seq<CachedGuest>) {
    todo != [] ==>
      var k := |todo| - 1;
      IsPlan(todo[k].job, guests, todo[k].plan) && AllPlanned(todo[..k], guests)
  }

  /** Each job together with its plan. */
  ghost predicate PlansOf(todo: seq<PlannedJob>, jobs: seq<BackupJob>, guests: seq<CachedGuest>) {
    |todo| == |jobs| && (forall i :: 0 <= i < |jobs| ==> todo[i].job == jobs[i]) && AllPlanned(todo, guests)
  }

  method SyncEach(remotes: PveRemotes, env: Env, guests: seq<CachedGuest>, jobs: seq<BackupJob>)
    returns (todo: seq<PlannedJob>)
    requires remotes.Valid()
    modifies remotes
    ensures remotes.Valid() && PlansOf(todo, jobs, guests)
    ensures remotes.jobs == SyncedAll(old(remotes.jobs), env, todo)
  {
    todo := [];
    for i := 0 to |jobs|
      invariant remotes.Valid() && PlansOf(todo, jobs[..i], guests)
      invariant remotes.jobs == SyncedAll(old(remotes.jobs), env, todo)
    {
      var plan, status := remotes.SyncJob(env, jobs[i], guests);
      PlansGrow(todo, jobs, guests, i, plan);
      todo := todo + [PlannedJob(jobs[i], plan)];
    }
    assert jobs[..|jobs|] == jobs;
  }

  lemma PlansGrow(todo: seq<PlannedJob>, jobs: seq<BackupJob>, guests: seq<CachedGuest>, i: nat, plan: JobPlan)
    requires i < |jobs| && PlansOf(todo, jobs[..i], guests) && IsPlan(jobs[i], guests, plan)
    ensures PlansOf(todo + [PlannedJob(jobs[i], plan)], jobs[..i + 1], guests)
    ensures (todo + [PlannedJob(jobs[i], plan)])[..|todo|] == todo
  {
    assert jobs[..i + 1] == jobs[..i] + [jobs[i]];
    assert (todo + [PlannedJob(jobs[i], plan)])[..i] == todo;
  }

  /** `reconcile_all` over one snapshot of the guests: follow the guests that moved, then sync every job
      in the order of the file. */
  method ReconcileAll(config: JobConfig, remotes: PveRemotes, env: Env, guests: seq<CachedGuest>)
    returns (todo: seq<PlannedJob>)
    requires remotes.Valid()
    modifies config, remotes
    ensures remotes.Valid() && config.jobs == FollowAll(guests, old(config.jobs))
    ensures PlansOf(todo, config.jobs, guests)
    ensures remotes.jobs == SyncedAll(old(remotes.jobs), env, todo)
  {
    var changed := config.FollowMigratedGuests(guests);
    todo := SyncEach(remotes, env, guests, config.jobs);
  }

  function FollowAll(guests: seq<CachedGuest>, jobs: seq<BackupJob>): (r: seq<BackupJob>)
    ensures |r| == |jobs| && forall i :: 0 <= i < |jobs| ==> r[i] == FollowJob(guests, jobs[i])
  {
    seq(|jobs|, i requires 0 <= i < |jobs| => FollowJob(guests, jobs[i]))
  }

  /** The plans of given jobs are determined. */
  lemma {:induction false} PlansUnique(todo: seq<PlannedJob>, other: seq<PlannedJob>, guests: seq<CachedGuest>)
    requires AllPlanned(todo, guests) && AllPlanned(other, guests)
    requires |todo| == |other| && forall i :: 0 <= i < |todo| ==> todo[i].job == other[i].job
    ensures todo == other
  {
    if todo != [] {
      var k := |todo| - 1;
      PlansUnique(todo[..k], other[..k], guests);
      SamePlan(todo[k].job, guests, todo[k].plan, other[k].plan);
      assert todo == todo[..k] + [todo[k]] && other == other[..k] + [other[k]];
    }
  }

  lemma SamePlan(job: BackupJob, guests: seq<CachedGuest>, p: JobPlan, q: JobPlan)
    requires IsPlan(job, guests, p) && IsPlan(job, guests, q)
    ensures p == q
  {
    PlanUnique(job, job, guests, p, q);
  }

  /** A second reconcile on the same guests, over jobs with distinct ids, changes neither the configuration nor
      any remote, whichever calls fail, and makes the same plans. */
  lemma SecondReconcileChangesNothing(w: World, env: Env, jobs: seq<BackupJob>, guests: seq<CachedGuest>,
                                      todo: seq<PlannedJob>, again: seq<PlannedJob>)
    requires forall i, j :: 0 <= i < j < |jobs| ==> jobs[i].id != jobs[j].id
    requires PlansOf(todo, FollowAll(guests, jobs), guests)
    requires PlansOf(again, FollowAll(guests, FollowAll(guests, jobs)), guests)
    ensures FollowAll(guests, FollowAll(guests, jobs)) == FollowAll(guests, jobs) && again == todo
    ensures SyncedAll(SyncedAll(w, env, todo), env, again) == SyncedAll(w, env, todo)
  {
    var followed := FollowAll(guests, jobs);
    forall i | 0 <= i < |jobs| ensures FollowAll(guests, followed)[i] == followed[i] {
      FollowIdempotent(guests, jobs[i]);
    }
    assert FollowAll(guests, followed) == followed;
    PlansUnique(todo, again, guests);
    SyncedTwice(w, env, todo);
  }
}
