/** Resolving the guest selection of a job into a plan per remote (`build_plan` in
    server/src/backup_jobs.rs). */
module BackupPlan {
  import opened BackupJobs
  import opened Machine
  import opened Ordering
  import opened Sequences
  import opened Wrappers

  /** A guest as the resource cache reports it. */
  datatype CachedGuest = CachedGuest(remote: string, vmid: Vmid, node: string, tags: seq<string>, template: bool)

  datatype RemotePlan = RemotePlan(storage: Option<string>, vmids: seq<nat>, nodes: map<nat, string>)

  type JobPlan = map<string, RemotePlan>

  /** The cached guests with a vmid, in the order of the cache. */
  function Located(guests: seq<CachedGuest>, vmid: nat): seq<CachedGuest> {
    if guests == [] then []
    else
      var k := |guests| - 1;
      Located(guests[..k], vmid) + if guests[k].vmid == vmid then [guests[k]] else []
  }

  /** Where an explicit entry is looked for: where the cache has its only guest with that vmid if the
      job follows migrations, else where the entry says. */
  function Resolve(job: BackupJob, guests: seq<CachedGuest>, entry: Guest): string {
    var found := Located(guests, entry.vmid);
    if job.FollowsMigrations() && |found| == 1 then found[0].remote else entry.remote
  }

  /** A cached guest is selected through its tags. */
  predicate TagSelects(job: BackupJob, guest: CachedGuest) {
    && job.tagFilters != []
    && !guest.template
    && (job.tagFilterRemotes == [] || guest.remote in job.tagFilterRemotes)
    && exists tag :: tag in guest.tags && tag in job.tagFilters
  }

  ghost predicate ExplicitlyPlanned(job: BackupJob, guests: seq<CachedGuest>, remote: string, vmid: nat) {
    exists i :: 0 <= i < |job.guests| && job.guests[i].vmid == vmid && Resolve(job, guests, job.guests[i]) == remote
  }

  ghost predicate PlannedByTag(job: BackupJob, guests: seq<CachedGuest>, remote: string, vmid: nat) {
    exists i :: 0 <= i < |guests| && guests[i].vmid == vmid && guests[i].remote == remote && TagSelects(job, guests[i])
  }

  /** The guests a job backs up and where. */
  ghost predicate Planned(job: BackupJob, guests: seq<CachedGuest>, remote: string, vmid: nat) {
    ExplicitlyPlanned(job, guests, remote, vmid) || PlannedByTag(job, guests, remote, vmid)
  }

  /** `node` is the node of the last guest with the vmid cached on the remote. */
  ghost predicate NodeIs(guests: seq<CachedGuest>, remote: string, vmid: nat, node: string) {
    exists i :: 0 <= i < |guests| && guests[i].remote == remote && guests[i].vmid == vmid && guests[i].node == node
                && forall j :: i < j < |guests| ==> guests[j].remote != remote || guests[j].vmid != vmid
  }

  ghost predicate CachedOn(guests: seq<CachedGuest>, remote: string, vmid: nat) {
    exists i :: 0 <= i < |guests| && guests[i].remote == remote && guests[i].vmid == vmid
  }

  ghost predicate IsRemotePlan(job: BackupJob, guests: seq<CachedGuest>, remote: string, plan: RemotePlan) {
    && plan.storage == job.StorageFor(remote)
    && plan.vmids != [] && Ascending(plan.vmids)
    && (forall v :: v in plan.vmids <==> Planned(job, guests, remote, v))
    && (forall v :: v in plan.nodes <==> v in plan.vmids && CachedOn(guests, remote, v))
    && (forall v :: v in plan.nodes ==> NodeIs(guests, remote, v, plan.nodes[v]))
  }

  /** The specification of `build_plan`: a remote is in the plan exactly when a guest is planned on it,
      its plan is never empty, holds exactly the planned vmids in strictly ascending order, and knows
      the node of exactly those that the cache has on that remote. */
  ghost predicate IsPlan(job: BackupJob, guests: seq<CachedGuest>, plan: JobPlan) {
    && (forall r :: r in plan <==> exists v :: Planned(job, guests, r, v))
    && (forall r :: r in plan ==> IsRemotePlan(job, guests, r, plan[r]))
  }

  /** `guests[k]` is the only cached guest with the vmid. */
  ghost predicate IsOnly(guests: seq<CachedGuest>, vmid: nat, k: nat) {
    && k < |guests| && guests[k].vmid == vmid
    && forall j :: 0 <= j < |guests| && j != k ==> guests[j].vmid != vmid
  }

  lemma {:induction false} NoneLocated(guests: seq<CachedGuest>, vmid: nat)
    ensures Located(guests, vmid) == [] <==> forall j :: 0 <= j < |guests| ==> guests[j].vmid != vmid
  {
    if guests != [] { NoneLocated(guests[..|guests| - 1], vmid); }
  }

  lemma {:induction false} OneLocated(guests: seq<CachedGuest>, vmid: nat)
    ensures |Located(guests, vmid)| == 1 <==> exists k: nat :: IsOnly(guests, vmid, k)
    ensures forall k: nat :: IsOnly(guests, vmid, k) ==> Located(guests, vmid) == [guests[k]]
  {
    if guests != [] {
      var t := |guests| - 1;
      var before := guests[..t];
      OneLocated(before, vmid);
      NoneLocated(before, vmid);
      assert forall j :: 0 <= j < t ==> before[j] == guests[j];
      if guests[t].vmid == vmid {
        forall k: nat | IsOnly(guests, vmid, k) ensures k == t {}
        if Located(before, vmid) == [] { assert IsOnly(guests, vmid, t); }
      } else {
        forall k: nat ensures IsOnly(guests, vmid, k) <==> IsOnly(before, vmid, k) {}
      }
    }
  }

  /** Where an explicit entry belongs: with the only cached guest that has its vmid, unless the job is set not to
      follow migrations, and else where the entry says. */
  ghost predicate BelongsTo(job: BackupJob, guests: seq<CachedGuest>, entry: Guest, remote: string) {
    if job.followMigrations != Some(false) && exists k: nat :: IsOnly(guests, entry.vmid, k)
    then exists k: nat :: IsOnly(guests, entry.vmid, k) && guests[k].remote == remote
    else remote == entry.remote
  }

  lemma ResolveMeans(job: BackupJob, guests: seq<CachedGuest>, entry: Guest, remote: string)
    ensures Resolve(job, guests, entry) == remote <==> BelongsTo(job, guests, entry, remote)
  {
    OneLocated(guests, entry.vmid);
  }

  /** A guest is planned on a remote exactly if an explicit entry for it belongs there, or it is cached there, is no
      template, has a wanted tag, and the remote is allowed. */
  lemma PlannedMeans(job: BackupJob, guests: seq<CachedGuest>, remote: string, vmid: nat)
    ensures Planned(job, guests, remote, vmid)
            <==> || (exists i :: 0 <= i < |job.guests| && job.guests[i].vmid == vmid
                                 && BelongsTo(job, guests, job.guests[i], remote))
                 || (exists i :: 0 <= i < |guests| && guests[i].vmid == vmid && guests[i].remote == remote
                                 && !guests[i].template
                                 && (job.tagFilterRemotes == [] || remote in job.tagFilterRemotes)
                                 && exists tag :: tag in guests[i].tags && tag in job.tagFilters)
  {
    forall i | 0 <= i < |job.guests|
      ensures Resolve(job, guests, job.guests[i]) == remote <==> BelongsTo(job, guests, job.guests[i], remote)
    {
      ResolveMeans(job, guests, job.guests[i], remote);
    }
  }

  /** Planned vmids are vmids. */
  lemma PlannedAreVmids(job: BackupJob, guests: seq<CachedGuest>, plan: JobPlan, r: string)
    requires IsPlan(job, guests, plan) && r in plan
    ensures forall i :: 0 <= i < |plan[r].vmids| ==> plan[r].vmids[i] < U32
  {
    var vmids := plan[r].vmids;
    assert IsRemotePlan(job, guests, r, plan[r]);
    forall i | 0 <= i < |vmids| ensures vmids[i] < U32 {
      assert vmids[i] in vmids;
      PlannedIsVmid(job, guests, r, vmids[i]);
    }
  }

  lemma PlannedIsVmid(job: BackupJob, guests: seq<CachedGuest>, r: string, v: nat)
    requires Planned(job, guests, r, v)
    ensures v < U32
  {}

  lemma NodeUnique(guests: seq<CachedGuest>, remote: string, vmid: nat, a: string, b: string)
    requires NodeIs(guests, remote, vmid, a) && NodeIs(guests, remote, vmid, b)
    ensures a == b
  {}

  /** Two jobs plan the same guests. */
  ghost predicate PlanAlike(job: BackupJob, other: BackupJob, guests: seq<CachedGuest>) {
    forall r, v :: Planned(job, guests, r, v) <==> Planned(other, guests, r, v)
  }

  lemma RemotePlanUnique(job: BackupJob, other: BackupJob, guests: seq<CachedGuest>, r: string, p: RemotePlan,
                         q: RemotePlan)
    requires IsRemotePlan(job, guests, r, p) && IsRemotePlan(other, guests, r, q)
    requires PlanAlike(job, other, guests) && job.StorageFor(r) == other.StorageFor(r)
    ensures p == q
  {
    AscendingUnique(p.vmids, q.vmids);
    assert p.nodes.Keys == q.nodes.Keys;
    forall v | v in p.nodes ensures p.nodes[v] == q.nodes[v] {
      NodeUnique(guests, r, v, p.nodes[v], q.nodes[v]);
    }
  }

  /** The specification determines the plan: two jobs that plan the same guests and use the same
      storages have the same plan. */
  lemma PlanUnique(job: BackupJob, other: BackupJob, guests: seq<CachedGuest>, p: JobPlan, q: JobPlan)
    requires IsPlan(job, guests, p) && IsPlan(other, guests, q)
    requires PlanAlike(job, other, guests)
    requires forall r :: job.StorageFor(r) == other.StorageFor(r)
    ensures p == q
  {
    PlannedRemotes(job, other, guests, p, q);
    PlannedRemotes(other, job, guests, q, p);
    assert p.Keys == q.Keys;
    forall r | r in p ensures p[r] == q[r] { RemotePlanUnique(job, other, guests, r, p[r], q[r]); }
  }

  lemma PlannedRemotes(job: BackupJob, other: BackupJob, guests: seq<CachedGuest>, p: JobPlan, q: JobPlan)
    requires IsPlan(job, guests, p) && IsPlan(other, guests, q) && PlanAlike(job, other, guests)
    ensures p.Keys <= q.Keys
  {
    forall r | r in p ensures r in q {
      var v :| Planned(job, guests, r, v);
      assert Planned(other, guests, r, v);
    }
  }

  /** No explicitly selected vmid is lost. */
  lemma NoExplicitVmidLost(job: BackupJob, guests: seq<CachedGuest>, plan: JobPlan, i: nat)
    requires IsPlan(job, guests, plan) && i < |job.guests|
    ensures exists r :: r in plan && job.guests[i].vmid in plan[r].vmids
  {
    var r, v := Resolve(job, guests, job.guests[i]), job.guests[i].vmid;
    assert ExplicitlyPlanned(job, guests, r, v);
    assert Planned(job, guests, r, v);
    assert r in plan && v in plan[r].vmids;
  }

  /** The selection gathered so far. */
  ghost predicate Selects(selected: map<string, set<nat>>, r: string, v: nat) {
    r in selected && v in selected[r]
  }

  function Select(selected: map<string, set<nat>>, r: string, v: nat): (more: map<string, set<nat>>)
    ensures forall r', v' :: Selects(more, r', v') <==> Selects(selected, r', v') || (r' == r && v' == v)
    ensures (forall k :: k in selected ==> selected[k] != {}) ==> forall k :: k in more ==> more[k] != {}
  {
    selected[r := (if r in selected then selected[r] else {}) + {v}]
  }

  method GroupByVmid(guests: seq<CachedGuest>) returns (byVmid: map<nat, seq<CachedGuest>>)
    ensures forall v :: (if v in byVmid then byVmid[v] else []) == Located(guests, v)
  {
    byVmid := map[];
    for i := 0 to |guests|
      invariant forall v :: (if v in byVmid then byVmid[v] else []) == Located(guests[..i], v)
    {
      var guest := guests[i];
      var entry := if guest.vmid in byVmid then byVmid[guest.vmid] else [];
      byVmid := byVmid[guest.vmid := entry + [guest]];
      assert guests[..i + 1][..i] == guests[..i];
    }
    assert guests[..|guests|] == guests;
  }

  /** Exactly the first `i` explicit entries are selected, and no remote without a guest. */
  ghost predicate SelectedUpTo(job: BackupJob, guests: seq<CachedGuest>, selected: map<string, set<nat>>, i: nat)
    requires i <= |job.guests|
  {
    && (forall r, v :: Selects(selected, r, v) <==> ResolvesBefore(job, guests, i, r, v))
    && forall r :: r in selected ==> selected[r] != {}
  }

  ghost predicate ResolvesBefore(job: BackupJob, guests: seq<CachedGuest>, i: nat, r: string, v: nat)
    requires i <= |job.guests|
  {
    exists k :: 0 <= k < i && job.guests[k].vmid == v && Resolve(job, guests, job.guests[k]) == r
  }

  lemma SelectsOneMore(job: BackupJob, guests: seq<CachedGuest>, selected: map<string, set<nat>>, i: nat)
    requires i < |job.guests| && SelectedUpTo(job, guests, selected, i)
    ensures SelectedUpTo(job, guests, Select(selected, Resolve(job, guests, job.guests[i]), job.guests[i].vmid), i + 1)
  {
    var remote, vmid := Resolve(job, guests, job.guests[i]), job.guests[i].vmid;
    forall r, v
      ensures ResolvesBefore(job, guests, i + 1, r, v)
              <==> ResolvesBefore(job, guests, i, r, v) || (r == remote && v == vmid)
    {
      assert job.guests[i].vmid == vmid;
    }
  }

  method SelectExplicit(job: BackupJob, guests: seq<CachedGuest>) returns (selected: map<string, set<nat>>)
    ensures forall r, v :: Selects(selected, r, v) <==> ExplicitlyPlanned(job, guests, r, v)
    ensures forall r :: r in selected ==> selected[r] != {}
  {
    var byVmid := GroupByVmid(guests);
    selected := map[];
    for i := 0 to |job.guests|
      invariant SelectedUpTo(job, guests, selected, i)
    {
      SelectsOneMore(job, guests, selected, i);
      var entry := job.guests[i];
      var remote := entry.remote;
      if entry.vmid in byVmid {
        var found: seq<CachedGuest> := byVmid[entry.vmid];
        if job.FollowsMigrations() && |found| == 1 { remote := found[0].remote; }
      }
      assert remote == Resolve(job, guests, entry);
      selected := Select(selected, remote, entry.vmid);
    }
    forall r, v ensures Selects(selected, r, v) <==> ExplicitlyPlanned(job, guests, r, v) {
      assert Selects(selected, r, v) <==> ResolvesBefore(job, guests, |job.guests|, r, v);
    }
  }

  method SelectByTag(job: BackupJob, guests: seq<CachedGuest>, explicit: map<string, set<nat>>)
    returns (selected: map<string, set<nat>>)
    requires forall r :: r in explicit ==> explicit[r] != {}
    ensures forall r, v :: Selects(selected, r, v) <==> Selects(explicit, r, v) || PlannedByTag(job, guests, r, v)
    ensures forall r :: r in selected ==> selected[r] != {}
  {
    selected := explicit;
    if job.tagFilters == [] { return; }
    for i := 0 to |guests|
      invariant forall r, v :: Selects(selected, r, v) <==>
        Selects(explicit, r, v)
        || exists k :: 0 <= k < i && guests[k].vmid == v && guests[k].remote == r && TagSelects(job, guests[k])
      invariant forall r :: r in selected ==> selected[r] != {}
    {
      var guest := guests[i];
      if guest.template { continue; }
      if job.tagFilterRemotes != [] && guest.remote !in job.tagFilterRemotes { continue; }
      if exists tag | tag in guest.tags :: tag in job.tagFilters {
        selected := Select(selected, guest.remote, guest.vmid);
      }
    }
  }

  method FindNodes(guests: seq<CachedGuest>, remote: string, vmids: set<nat>) returns (nodes: map<nat, string>)
    ensures forall v :: v in nodes <==> v in vmids && CachedOn(guests, remote, v)
    ensures forall v :: v in nodes ==> NodeIs(guests, remote, v, nodes[v])
  {
    nodes := map[];
    for i := 0 to |guests|
      invariant forall v :: v in nodes <==> v in vmids && CachedOn(guests[..i], remote, v)
      invariant forall v :: v in nodes ==> NodeIs(guests[..i], remote, v, nodes[v])
    {
      var guest := guests[i];
      NodesGrow(guests, remote, i);
      if guest.remote == remote && guest.vmid in vmids {
        nodes := nodes[guest.vmid := guest.node];
      }
    }
    assert guests[..|guests|] == guests;
  }

  lemma NodesGrow(guests: seq<CachedGuest>, remote: string, i: nat)
    requires i < |guests|
    ensures forall v :: CachedOn(guests[..i + 1], remote, v) <==>
      CachedOn(guests[..i], remote, v) || (guests[i].remote == remote && guests[i].vmid == v)
    ensures forall v, node ::
      NodeIs(guests[..i], remote, v, node) && !(guests[i].remote == remote && guests[i].vmid == v)
      ==> NodeIs(guests[..i + 1], remote, v, node)
    ensures guests[i].remote == remote ==> NodeIs(guests[..i + 1], remote, guests[i].vmid, guests[i].node)
  {
    var a, b := guests[..i], guests[..i + 1];
    assert b[i] == guests[i] && forall k :: 0 <= k < i ==> b[k] == a[k];
    forall v, node | NodeIs(a, remote, v, node) && !(guests[i].remote == remote && guests[i].vmid == v)
      ensures NodeIs(b, remote, v, node)
    {
      var k :| 0 <= k < |a| && a[k].remote == remote && a[k].vmid == v && a[k].node == node
               && forall j :: k < j < |a| ==> a[j].remote != remote || a[j].vmid != v;
      assert b[k].node == node;
    }
    if guests[i].remote == remote { assert b[i].node == guests[i].node; }
    forall v | CachedOn(a, remote, v) ensures CachedOn(b, remote, v) {
      var k :| 0 <= k < |a| && a[k].remote == remote && a[k].vmid == v;
      assert b[k].vmid == v;
    }
  }

  method SortVmids(vmids: set<nat>) returns (list: seq<nat>)
    ensures Ascending(list) && forall v :: v in list <==> v in vmids
  {
    var left, collected := vmids, [];
    while left != {}
      invariant left <= vmids && Distinct(collected)
      invariant forall v :: v in collected <==> v in vmids && v !in left
    {
      var v: nat :| v in left;
      collected := collected + [v];
      left := left - {v};
    }
    list := Sort(NumberLe, collected);
    SortedDistinctAscends(collected);
  }

  method BuildPlan(job: BackupJob, guests: seq<CachedGuest>) returns (plan: JobPlan)
    ensures IsPlan(job, guests, plan)
  {
    var selected := SelectExplicit(job, guests);
    selected := SelectByTag(job, guests, selected);
    plan := map[];
    var left := selected.Keys;
    while left != {}
      invariant left <= selected.Keys && plan.Keys == selected.Keys - left
      invariant forall r :: r in plan ==> IsRemotePlan(job, guests, r, plan[r])
    {
      var remote :| remote in left;
      var nodes := FindNodes(guests, remote, selected[remote]);
      var vmids := SortVmids(selected[remote]);
      plan := plan[remote := RemotePlan(job.StorageFor(remote), vmids, nodes)];
      PlannedOn(job, guests, selected, remote, plan[remote]);
      left := left - {remote};
    }
    forall r ensures r in plan <==> exists v :: Planned(job, guests, r, v) {
      if r in selected {
        var v: nat :| v in selected[r];
        assert Selects(selected, r, v);
        assert Planned(job, guests, r, v);
      }
      if v: nat :| Planned(job, guests, r, v) { assert Selects(selected, r, v); }
    }
  }

  lemma PlannedOn(job: BackupJob, guests: seq<CachedGuest>, selected: map<string, set<nat>>, remote: string,
                  plan: RemotePlan)
    requires forall r, v :: Selects(selected, r, v) <==> Planned(job, guests, r, v)
    requires remote in selected && selected[remote] != {}
    requires plan.storage == job.StorageFor(remote)
    requires Ascending(plan.vmids) && forall v :: v in plan.vmids <==> v in selected[remote]
    requires forall v :: v in plan.nodes <==> v in selected[remote] && CachedOn(guests, remote, v)
    requires forall v :: v in plan.nodes ==> NodeIs(guests, remote, v, plan.nodes[v])
    ensures IsRemotePlan(job, guests, remote, plan)
  {
    forall v: nat ensures v in plan.vmids <==> Planned(job, guests, remote, v) {
      assert v in plan.vmids <==> Selects(selected, remote, v);
    }
    var v: nat :| v in selected[remote];
    assert v in plan.vmids;
  }
}
