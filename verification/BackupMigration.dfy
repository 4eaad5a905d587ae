/** Rewriting the guest entries of the jobs whose guests have moved to another remote
    (`follow_migrated_guests` in server/src/backup_jobs.rs). */
module BackupMigration {
  import opened BackupJobs
  import opened BackupPlan
  import opened Sequences
  import opened Wrappers

  /** The different remotes the cache has a vmid on, in the order of their first guest. */
  function Locations(guests: seq<CachedGuest>, vmid: nat): seq<string> {
    if guests == [] then []
    else
      var k := |guests| - 1;
      var before := Locations(guests[..k], vmid);
      if guests[k].vmid == vmid && guests[k].remote !in before then before + [guests[k].remote] else before
  }

  function FollowEntry(guests: seq<CachedGuest>, entry: Guest): Guest {
    var remotes := Locations(guests, entry.vmid);
    if |remotes| == 1 then entry.(remote := remotes[0]) else entry
  }

  function FollowEntries(guests: seq<CachedGuest>, entries: seq<Guest>): (r: seq<Guest>)
    ensures |r| == |entries| && forall i :: 0 <= i < |entries| ==> r[i] == FollowEntry(guests, entries[i])
  {
    seq(|entries|, i requires 0 <= i < |entries| => FollowEntry(guests, entries[i]))
  }

  function FollowJob(guests: seq<CachedGuest>, job: BackupJob): BackupJob {
    if job.FollowsMigrations() then job.(guests := FollowEntries(guests, job.guests)) else job
  }

  /** A remote is a location of a vmid exactly when the cache has a guest with the vmid there. */
  lemma LocationsAre(guests: seq<CachedGuest>, vmid: nat)
    ensures forall r :: r in Locations(guests, vmid) <==> CachedOn(guests, r, vmid)
    ensures Distinct(Locations(guests, vmid))
  {
    if guests != [] {
      var k := |guests| - 1;
      LocationsAre(guests[..k], vmid);
      assert guests[..k + 1] == guests;
      forall r { NodesGrow(guests, r, k); }
    }
  }

  /** A vmid with a single location has a single guest. */
  ghost predicate OneGuestPerLocation(guests: seq<CachedGuest>) {
    forall vmid: Vmid :: |Locations(guests, vmid)| == 1 ==> |Located(guests, vmid)| == 1
  }

  /** On such a cache the rewrite does not change where an entry is looked for. */
  lemma FollowKeepsResolve(job: BackupJob, guests: seq<CachedGuest>, entry: Guest)
    requires OneGuestPerLocation(guests) && job.FollowsMigrations()
    ensures Resolve(job, guests, FollowEntry(guests, entry)) == Resolve(job, guests, entry)
  {}

  lemma FollowPlansAlike(job: BackupJob, guests: seq<CachedGuest>)
    requires OneGuestPerLocation(guests)
    ensures PlanAlike(job, FollowJob(guests, job), guests)
  {
    if job.FollowsMigrations() {
      var followed := FollowJob(guests, job);
      forall i | 0 <= i < |job.guests|
        ensures followed.guests[i].vmid == job.guests[i].vmid
        ensures Resolve(followed, guests, followed.guests[i]) == Resolve(job, guests, job.guests[i])
      {
        FollowKeepsResolve(job, guests, job.guests[i]);
      }
      forall r, v ensures ExplicitlyPlanned(job, guests, r, v) <==> ExplicitlyPlanned(followed, guests, r, v) {
        if i :| 0 <= i < |job.guests| && job.guests[i].vmid == v && Resolve(job, guests, job.guests[i]) == r {
          assert followed.guests[i].vmid == v;
        }
        if i :| 0 <= i < |followed.guests| && followed.guests[i].vmid == v
                && Resolve(followed, guests, followed.guests[i]) == r {
          assert job.guests[i].vmid == v;
        }
      }
      assert forall g :: TagSelects(job, g) == TagSelects(followed, g);
    }
  }

  /** The cache has the vmid on this remote and on no other. */
  ghost predicate OnlyOn(guests: seq<CachedGuest>, vmid: nat, remote: string) {
    && (exists k :: 0 <= k < |guests| && guests[k].vmid == vmid && guests[k].remote == remote)
    && forall k :: 0 <= k < |guests| && guests[k].vmid == vmid ==> guests[k].remote == remote
  }

  lemma OneLocation(guests: seq<CachedGuest>, vmid: nat, remote: string)
    ensures Locations(guests, vmid) == [remote] <==> OnlyOn(guests, vmid, remote)
  {
    var remotes := Locations(guests, vmid);
    LocationsAre(guests, vmid);
    assert forall k :: 0 <= k < |guests| && guests[k].vmid == vmid ==> CachedOn(guests, guests[k].remote, vmid);
    if OnlyOn(guests, vmid, remote) {
      assert |remotes| >= 2 ==> remotes[0] != remotes[1];
      assert CachedOn(guests, remote, vmid);
      forall i | 0 <= i < |remotes| ensures remotes[i] == remote {
        assert remotes[i] in remotes && CachedOn(guests, remotes[i], vmid);
      }
    }
    if remotes == [remote] {
      assert remote in remotes && CachedOn(guests, remote, vmid);
    }
  }

  /** What following does: a job set not to follow migrations stays as it is; of any other job, only the remotes of
      the guest entries change, each to the one remote the cache has its vmid on, if there is just one. */
  lemma FollowMeans(guests: seq<CachedGuest>, job: BackupJob)
    ensures job.followMigrations == Some(false) ==> FollowJob(guests, job) == job
    ensures FollowJob(guests, job) == job.(guests := FollowJob(guests, job).guests)
    ensures |FollowJob(guests, job).guests| == |job.guests|
    ensures job.followMigrations != Some(false) ==>
      forall i :: 0 <= i < |job.guests| ==>
        var was, followed := job.guests[i], FollowJob(guests, job).guests[i];
        && followed.vmid == was.vmid
        && (forall r :: OnlyOn(guests, was.vmid, r) ==> followed.remote == r)
        && ((forall r :: !OnlyOn(guests, was.vmid, r)) ==> followed == was)
  {
    if job.followMigrations != Some(false) {
      forall i | 0 <= i < |job.guests|
        ensures var was, followed := job.guests[i], FollowEntry(guests, job.guests[i]);
          && followed.vmid == was.vmid
          && (forall r :: OnlyOn(guests, was.vmid, r) ==> followed.remote == r)
          && ((forall r :: !OnlyOn(guests, was.vmid, r)) ==> followed == was)
      {
        FollowEntryMeans(guests, job.guests[i]);
      }
    }
  }

  lemma FollowEntryMeans(guests: seq<CachedGuest>, entry: Guest)
    ensures var followed := FollowEntry(guests, entry);
      && followed.vmid == entry.vmid
      && (forall r :: OnlyOn(guests, entry.vmid, r) ==> followed.remote == r)
      && ((forall r :: !OnlyOn(guests, entry.vmid, r)) ==> followed == entry)
  {
    var remotes := Locations(guests, entry.vmid);
    forall r ensures OnlyOn(guests, entry.vmid, r) <==> remotes == [r] { OneLocation(guests, entry.vmid, r); }
    if |remotes| == 1 { assert remotes == [remotes[0]]; }
  }

  /** A job that selects one guest and follows migrations. */
  function OneGuestJob(entry: Guest): BackupJob {
    BackupJob("follow", None, None, "", None, [entry], [], [], [], None, None, None, None, None, None, None, None)
  }

  lemma {:induction false} TwoGuestsBreakFollowing(guests: seq<CachedGuest>, vmid: Vmid)
    requires |Locations(guests, vmid)| == 1 && |Located(guests, vmid)| != 1
    ensures exists entry :: !PlanAlike(OneGuestJob(entry), FollowJob(guests, OneGuestJob(entry)), guests)
  {
    var here := Locations(guests, vmid)[0];
    var entry := Guest(here + "x", vmid);
    var job := OneGuestJob(entry);
    var followed := FollowJob(guests, job);
    assert Resolve(job, guests, job.guests[0]) == here + "x";
    assert ExplicitlyPlanned(job, guests, here + "x", vmid);
    assert Planned(job, guests, here + "x", vmid);
    assert followed.guests[0] == Guest(here, vmid) && Resolve(followed, guests, followed.guests[0]) == here;
    assert !ExplicitlyPlanned(followed, guests, here + "x", vmid);
    assert !Planned(followed, guests, here + "x", vmid);
  }

  /** A guest that the cache has on two nodes of one remote. */
  function CachedTwice(remote: string, vmid: Vmid, a: string, b: string): seq<CachedGuest> {
    [CachedGuest(remote, vmid, a, [], false), CachedGuest(remote, vmid, b, [], false)]
  }

  lemma CachedTwiceHere(remote: string, vmid: Vmid, a: string, b: string)
    ensures var guests := CachedTwice(remote, vmid, a, b);
      Located(guests, vmid) == guests && Locations(guests, vmid) == [remote]
  {
    var guests := CachedTwice(remote, vmid, a, b);
    assert guests[..1] == [guests[0]] && guests[..1][..0] == [];
    assert Located(guests[..1], vmid) == [guests[0]] && Locations(guests[..1], vmid) == [remote];
  }

  /** An entry for it on another remote is planned there, and on the remote of the cache after the rewrite. */
  lemma CachedTwiceMovesPlan(here: string, there: string, vmid: Vmid, a: string, b: string)
    requires here != there
    ensures var guests, job := CachedTwice(here, vmid, a, b), OneGuestJob(Guest(there, vmid));
      && Planned(job, guests, there, vmid) && !Planned(job, guests, here, vmid)
      && !Planned(FollowJob(guests, job), guests, there, vmid) && Planned(FollowJob(guests, job), guests, here, vmid)
  {
    var guests, job := CachedTwice(here, vmid, a, b), OneGuestJob(Guest(there, vmid));
    var followed := FollowJob(guests, job);
    CachedTwiceHere(here, vmid, a, b);
    assert job.guests[0].vmid == vmid && Resolve(job, guests, job.guests[0]) == there;
    assert followed.guests[0] == Guest(here, vmid) && Resolve(followed, guests, followed.guests[0]) == here;
    assert ExplicitlyPlanned(job, guests, there, vmid) && ExplicitlyPlanned(followed, guests, here, vmid);
  }

  /** Rewriting leaves the plan of every job unchanged exactly when no vmid has several cached guests
      all on one remote: the plan counts guests, the rewrite counts remotes. */
  lemma FollowKeepsPlans(guests: seq<CachedGuest>)
    ensures (forall job :: PlanAlike(job, FollowJob(guests, job), guests)) <==> OneGuestPerLocation(guests)
  {
    if OneGuestPerLocation(guests) {
      forall job ensures PlanAlike(job, FollowJob(guests, job), guests) { FollowPlansAlike(job, guests); }
    } else {
      var vmid: Vmid :| |Locations(guests, vmid)| == 1 && |Located(guests, vmid)| != 1;
      TwoGuestsBreakFollowing(guests, vmid);
    }
  }

  /** At most one guest per remote and vmid. */
  ghost predicate NoDuplicateGuests(guests: seq<CachedGuest>) {
    forall i, j :: 0 <= i < j < |guests| ==> guests[i].remote != guests[j].remote || guests[i].vmid != guests[j].vmid
  }

  lemma {:induction false} LocationPerGuest(guests: seq<CachedGuest>, vmid: nat)
    requires NoDuplicateGuests(guests)
    ensures |Locations(guests, vmid)| == |Located(guests, vmid)|
  {
    if guests != [] {
      var k := |guests| - 1;
      LocationPerGuest(guests[..k], vmid);
      LocationsAre(guests[..k], vmid);
    }
  }

  /** So it is enough that the cache has at most one guest per remote and vmid. */
  lemma NoDuplicatesSuffice(guests: seq<CachedGuest>)
    requires NoDuplicateGuests(guests)
    ensures OneGuestPerLocation(guests)
  {
    forall vmid: Vmid { LocationPerGuest(guests, vmid); }
  }

  /** Under that condition a job's plan before and after the rewrite is the same plan, storages and nodes
      included. */
  lemma FollowKeepsPlan(job: BackupJob, guests: seq<CachedGuest>, before: JobPlan, after: JobPlan)
    requires OneGuestPerLocation(guests)
    requires IsPlan(job, guests, before) && IsPlan(FollowJob(guests, job), guests, after)
    ensures before == after
  {
    FollowPlansAlike(job, guests);
    PlanUnique(job, FollowJob(guests, job), guests, before, after);
  }

  /** A second rewrite on the same cache changes nothing. */
  lemma FollowIdempotent(guests: seq<CachedGuest>, job: BackupJob)
    ensures FollowJob(guests, FollowJob(guests, job)) == FollowJob(guests, job)
  {
    assert FollowEntries(guests, FollowEntries(guests, job.guests)) == FollowEntries(guests, job.guests);
  }

  /** The configuration file, as the list of its jobs. */
  class JobConfig {
    var jobs: seq<BackupJob>

    method LocationTable(guests: seq<CachedGuest>) returns (location: map<nat, seq<string>>)
      ensures forall v :: (if v in location then location[v] else []) == Locations(guests, v)
    {
      location := map[];
      for i := 0 to |guests|
        invariant forall v :: (if v in location then location[v] else []) == Locations(guests[..i], v)
      {
        var guest := guests[i];
        var entry := if guest.vmid in location then location[guest.vmid] else [];
        if guest.remote !in entry { entry := entry + [guest.remote]; }
        location := location[guest.vmid := entry];
        assert guests[..i + 1][..i] == guests[..i];
      }
      assert guests[..|guests|] == guests;
    }

    method FollowGuests(guests: seq<CachedGuest>, entries: seq<Guest>, location: map<nat, seq<string>>)
      returns (followed: seq<Guest>, changed: bool)
      requires forall v :: (if v in location then location[v] else []) == Locations(guests, v)
      ensures followed == FollowEntries(guests, entries) && (changed <==> followed != entries)
    {
      followed, changed := entries, false;
      for i := 0 to |entries|
        invariant |followed| == |entries|
        invariant forall k :: 0 <= k < i ==> followed[k] == FollowEntry(guests, entries[k])
        invariant forall k :: i <= k < |entries| ==> followed[k] == entries[k]
        invariant changed <==> exists k :: 0 <= k < i && followed[k] != entries[k]
      {
        if entries[i].vmid in location {
          var remotes := location[entries[i].vmid];
          if |remotes| == 1 && remotes[0] != entries[i].remote {
            followed := followed[i := entries[i].(remote := remotes[0])];
            assert followed[i] != entries[i];
            changed := true;
          }
        }
      }
    }

    /** Rewrites every job that follows migrations, and returns the ids of exactly those that changed,
        in the order of the file. */
    method FollowMigratedGuests(guests: seq<CachedGuest>) returns (changed: seq<string>)
      modifies this
      ensures |jobs| == |old(jobs)|
      ensures forall i :: 0 <= i < |jobs| ==> jobs[i] == FollowJob(guests, old(jobs)[i])
      ensures changed == ChangedIds(guests, old(jobs))
    {
      var location := LocationTable(guests);
      changed := [];
      for i := 0 to |jobs|
        invariant |jobs| == |old(jobs)|
        invariant forall k :: 0 <= k < i ==> jobs[k] == FollowJob(guests, old(jobs)[k])
        invariant forall k :: i <= k < |jobs| ==> jobs[k] == old(jobs)[k]
        invariant changed == ChangedIds(guests, old(jobs)[..i])
      {
        var job := jobs[i];
        assert old(jobs)[..i + 1][..i] == old(jobs)[..i];
        if job.FollowsMigrations() {
          var followed, jobChanged := FollowGuests(guests, job.guests, location);
          jobs := jobs[i := job.(guests := followed)];
          if jobChanged { changed := changed + [job.id]; }
        }
      }
      assert old(jobs)[..|jobs|] == old(jobs);
    }
  }

  function ChangedIds(guests: seq<CachedGuest>, jobs: seq<BackupJob>): seq<string> {
    if jobs == [] then []
    else
      var k := |jobs| - 1;
      ChangedIds(guests, jobs[..k]) + if FollowJob(guests, jobs[k]) != jobs[k] then [jobs[k].id] else []
  }

  /** Exactly the jobs that changed are reported. */
  lemma {:induction false} ChangedIdsAre(guests: seq<CachedGuest>, jobs: seq<BackupJob>, id: string)
    ensures id in ChangedIds(guests, jobs)
            <==> exists i :: 0 <= i < |jobs| && jobs[i].id == id && FollowJob(guests, jobs[i]).guests != jobs[i].guests
  {
    if jobs != [] {
      var k := |jobs| - 1;
      ChangedIdsAre(guests, jobs[..k], id);
      FollowMeans(guests, jobs[k]);
      assert forall i :: 0 <= i < k ==> jobs[..k][i] == jobs[i];
    }
  }
}
