/** The ways a PVE remote may report a job it stores, and that comparing sees through all of them. */
module RemoteEncoding {
  import opened BackupJobs
  import opened BackupPlan
  import opened JobPayload
  import opened Machine
  import opened Ordering
  import opened Sequences
  import opened Text
  import opened Wrappers

  ghost predicate Rearranged<T>(a: seq<T>, b: seq<T>) { multiset(a) == multiset(b) }

  /** A list of vmids may come back in any order, and a single one as a number. */
  ghost predicate ShowsVmids(vmids: seq<nat>, seen: Json) {
    exists order: seq<nat> :: Rearranged(order, vmids)
      && (seen == String(VmidText(order)) || (|order| == 1 && seen == Number(order[0])))
  }

  ghost predicate VmidsReported(stored: Option<Json>, seen: Option<Json>) {
    stored == seen
    || exists vmids: seq<nat> :: AreVmids(vmids) && stored == Some(String(VmidText(vmids)))
                                 && seen.Some? && ShowsVmids(vmids, seen.value)
  }

  /** A flag may come back as a number, a string or a boolean, and not at all when it is set. */
  predicate FlagReported(stored: Option<Json>, seen: Option<Json>) {
    stored == seen
    || (stored == Some(Number(1)) && seen in [None, Some(Bool(true)), Some(String("1"))])
    || (stored == Some(Number(0)) && seen in [Some(Bool(false)), Some(String("0"))])
  }

  predicate NumberReported(stored: Option<Json>, seen: Option<Json>) {
    stored == seen
    || (stored.Some? && stored.value.Number? && seen == Some(String(PrintNumber(stored.value.n))))
  }

  /** The parts of a property string may come back in any order, and as the fields of an object. */
  ghost predicate PropertiesReported(stored: Option<Json>, seen: Option<Json>) {
    stored == seen
    || (stored.Some? && stored.value.String? && seen.Some?
        && ((seen.value.String? && Rearranged(Parts(seen.value.text), Parts(stored.value.text)))
            || (seen.value.Object? && Rearranged(PrintFields(seen.value.fields), Parts(stored.value.text)))))
  }

  /** What a remote may report for a stored job; keys that PDM does not look at are free. */
  ghost predicate Reported(stored: Record, seen: Record) {
    && VmidsReported(Get(stored, KVmid), Get(seen, KVmid))
    && FlagReported(Get(stored, KEnabled), Get(seen, KEnabled))
    && NumberReported(Get(stored, KBwlimit), Get(seen, KBwlimit))
    && PropertiesReported(Get(stored, KPruneBackups), Get(seen, KPruneBackups))
    && (forall key :: Compared(key) && key != KBwlimit ==> Get(stored, key) == Get(seen, key))
    && (KAll !in stored ==> AsBool(Get(seen, KAll)) != Some(true))
    && (KPool !in stored ==> KPool !in seen)
  }

  lemma NormalizeText(vmids: seq<nat>)
    requires AreVmids(vmids)
    ensures NormalizedVmids(Some(String(VmidText(vmids)))) == Dedup(Sort(NumberLe, vmids))
  {
    NormalizedFromText(VmidText(vmids));
    VmidTextRoundTrip(vmids);
  }

  lemma NormalizedFromText(text: string)
    ensures NormalizedVmids(Some(String(text))) == Dedup(Sort(NumberLe, ParseAll(Split(text, ','))))
  {}

  lemma SingleVmid(order: seq<nat>)
    requires |order| == 1
    ensures NormalizedVmids(Some(Number(order[0]))) == NormalizedVmids(Some(String(VmidText(order))))
  {
    assert Map(Decimal, order) == [Decimal(order[0])];
  }

  lemma VmidsSeenThrough(stored: Option<Json>, seen: Option<Json>)
    requires VmidsReported(stored, seen)
    ensures NormalizedVmids(stored) == NormalizedVmids(seen)
  {
    if stored != seen {
      var vmids: seq<nat> :| AreVmids(vmids) && stored == Some(String(VmidText(vmids)))
                             && seen.Some? && ShowsVmids(vmids, seen.value);
      var order: seq<nat> :| Rearranged(order, vmids)
        && (seen.value == String(VmidText(order)) || (|order| == 1 && seen.value == Number(order[0])));
      forall i | 0 <= i < |order| ensures order[i] < U32 {
        assert order[i] in multiset(vmids);
      }
      NormalizeText(vmids);
      NormalizeText(order);
      SameNumbersSortAlike(order, vmids);
      if |order| == 1 { SingleVmid(order); }
    }
  }

  lemma {:induction false} KeepsParts(parts: seq<string>)
    requires forall i :: 0 <= i < |parts| ==> IsPart(parts[i])
    ensures KeepParts(parts) == parts
  {
    if parts != [] {
      TrimmedStays(parts[0]);
      KeepsParts(parts[1..]);
    }
  }

  /** Splitting joined parts gives the parts back. */
  lemma PartsRoundTrip(parts: seq<string>)
    requires forall i :: 0 <= i < |parts| ==> IsPart(parts[i])
    ensures Parts(Join(parts, ',')) == parts
  {
    if parts == [] {
      assert Split("", ',') == [""] && Trim("") == "";
      assert KeepParts([""]) == KeepParts([""][1..]) && [""][1..] == [];
    } else {
      SplitJoin(parts, ',');
      KeepsParts(parts);
    }
  }

  lemma PropertiesSeenThrough(stored: Option<Json>, seen: Option<Json>)
    requires PropertiesReported(stored, seen)
    ensures NormalizedProperties(stored) == NormalizedProperties(seen)
  {
    if stored != seen {
      var parts := Parts(stored.value.text);
      if seen.value.String? {
        SameStringsSortAlike(Parts(seen.value.text), parts);
      } else {
        var printed := PrintFields(seen.value.fields);
        forall i | 0 <= i < |printed| ensures IsPart(printed[i]) {
          assert printed[i] in multiset(parts);
        }
        PartsRoundTrip(printed);
        SameStringsSortAlike(printed, parts);
      }
    }
  }

  /** A job that holds what PDM wants and selects guests in no other way is reported as in sync, however
      the remote encodes it. */
  lemma HoldsDesiredIsInSync(stored: Record, seen: Record, desired: Record)
    requires Reported(stored, seen) && KAll !in stored && KPool !in stored
    requires KVmid in desired && KEnabled in desired
    requires forall k :: k in desired ==> k in stored && stored[k] == desired[k]
    ensures InSync(seen, desired)
  {
    VmidsSeenThrough(Get(stored, KVmid), Get(seen, KVmid));
    PropertiesSeenThrough(Get(stored, KPruneBackups), Get(seen, KPruneBackups));
    FlagSeenThrough(stored, seen);
    assert forall key :: key in desired ==> Get(stored, key) == Get(desired, key);
    forall key | Compared(key) ensures KeyMatches(seen, desired, key) {
      NumberSeenThrough(Get(stored, KBwlimit), Get(seen, KBwlimit));
    }
  }

  lemma FlagSeenThrough(stored: Record, seen: Record)
    requires FlagReported(Get(stored, KEnabled), Get(seen, KEnabled))
    ensures Enabled(stored) == Enabled(seen)
  {}

  lemma NumberSeenThrough(stored: Option<Json>, seen: Option<Json>)
    requires NumberReported(stored, seen)
    ensures AsString(stored) == AsString(seen)
  {}

  lemma DesiredKeys(job: BackupJob, plan: RemotePlan, storage: string)
    ensures var desired := Desired(job, plan, storage);
      KVmid in desired && KEnabled in desired && KId !in desired && desired.Keys !! DELETED_KEYS
  {
    var desired := Desired(job, plan, storage);
    assert Get(desired, KVmid).Some? && Get(desired, KEnabled).Some? && Get(desired, KId).None?;
    forall key | key in desired ensures key !in DELETED_KEYS { assert Get(desired, key).Some?; }
  }

  /** A job just created or updated is in sync, whatever an earlier one held. */
  lemma WrittenIsInSync(job: BackupJob, plan: RemotePlan, storage: string, existing: Option<Record>, seen: Record)
    requires Reported(Written(existing, job, plan, storage), seen)
    ensures InSync(seen, Desired(job, plan, storage))
  {
    DesiredKeys(job, plan, storage);
    HoldsDesiredIsInSync(Written(existing, job, plan, storage), seen, Desired(job, plan, storage));
  }

  /** What `apply_on_remote` leaves: an update of the job that is there, else a new one. */
  function Written(existing: Option<Record>, job: BackupJob, plan: RemotePlan, storage: string): Record {
    match existing
    case Some(record) => Put(record, Desired(job, plan, storage))
    case None => Post(Desired(job, plan, storage), DerivedJobId(job.id))
  }

  /** Writing a second time changes nothing. */
  lemma WriteIdempotent(job: BackupJob, plan: RemotePlan, storage: string, existing: Option<Record>)
    ensures Written(Some(Written(existing, job, plan, storage)), job, plan, storage)
            == Written(existing, job, plan, storage)
  {
    DesiredKeys(job, plan, storage);
  }

  /** An option that is unset in a job stays set on the remote: the job is not what a new one would be, and
      still counts as in sync. */
  lemma UnsetOptionStays(job: BackupJob, plan: RemotePlan, storage: string)
    requires job.mode.Some?
    ensures var unset := job.(mode := None);
      var updated := Written(Some(Written(None, job, plan, storage)), unset, plan, storage);
      && Get(updated, KMode) == Some(String(job.mode.value))
      && Get(Written(None, unset, plan, storage), KMode) == None
      && InSync(updated, Desired(unset, plan, storage))
  {
    var unset, first := job.(mode := None), Written(None, job, plan, storage);
    var updated := Written(Some(first), unset, plan, storage);
    assert Get(Desired(job, plan, storage), KMode) == Some(String(job.mode.value));
    assert Get(Desired(unset, plan, storage), KMode) == None;
    assert Get(updated, KMode) == Get(first, KMode);
    DesiredKeys(unset, plan, storage);
    WrittenIsInSync(unset, plan, storage, Some(first), updated);
  }

  /** An update leaves the same job as a fresh one exactly when the job that was there holds nothing but
      its id, keys that are written again and keys that are deleted: an option that has been unset in
      PDM stays set on the remote, and yet the job counts as in sync. */
  lemma UpdateIsCreateExactlyWithoutLeftovers(job: BackupJob, plan: RemotePlan, storage: string, record: Record)
    requires Get(record, KId) == Some(String(DerivedJobId(job.id)))
    ensures Written(Some(record), job, plan, storage) == Written(None, job, plan, storage)
            <==> record.Keys <= {KId} + Desired(job, plan, storage).Keys + DELETED_KEYS
  {
    DesiredKeys(job, plan, storage);
    var desired := Desired(job, plan, storage);
    var updated, created := Put(record, desired), Post(desired, DerivedJobId(job.id));
    if record.Keys <= {KId} + desired.Keys + DELETED_KEYS {
      assert updated.Keys == created.Keys;
    } else {
      var k :| k in record && k !in {KId} + desired.Keys + DELETED_KEYS;
      assert k in updated && k !in created;
    }
  }
}
