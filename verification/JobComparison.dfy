/** When a remote's job counts as in sync with what PDM wants, and when it does not (`is_in_sync` in
    server/src/backup_jobs.rs). */
module JobComparison {
  import opened BackupJobs
  import opened BackupPlan
  import opened JobPayload
  import opened Machine
  import opened Ordering
  import opened RemoteEncoding
  import opened Text
  import opened Wrappers

  /** A value of a remote's job read as text: texts as they are, numbers in decimal, flags as words. */
  function ReadAs(value: Option<Json>): Option<string> {
    match value
    case Some(String(text)) => Some(text)
    case Some(Number(n)) => Some(if n < 0 then "-" + Decimal(-n) else Decimal(n))
    case Some(Bool(flag)) => Some(if flag then "true" else "false")
    case _ => None
  }

  lemma AsStringReads(value: Option<Json>)
    ensures AsString(value) == ReadAs(value)
  {}

  /** A value names a vmid: it is a list that has the number among its pieces. */
  ghost predicate Names(value: Option<Json>, n: nat) {
    ReadAs(value).Some? && exists piece :: piece in Split(ReadAs(value).value, ',') && ParseU32(Trim(piece)) == Some(n)
  }

  lemma {:induction false} ParseAllHas(entries: seq<string>, n: nat)
    ensures n in ParseAll(entries) <==> exists piece :: piece in entries && ParseU32(Trim(piece)) == Some(n)
  {
    if entries != [] {
      ParseAllHas(entries[1..], n);
      assert entries == [entries[0]] + entries[1..];
    }
  }

  lemma {:induction false} DedupSorted(s: seq<nat>)
    requires SortedBy(NumberLe, s)
    ensures Ascending(Dedup(s)) && forall n :: n in Dedup(s) <==> n in s
    ensures s != [] ==> Dedup(s) != [] && Dedup(s)[0] == s[0]
  {
    if |s| >= 2 {
      assert s == [s[0]] + s[1..] && s[1..][0] == s[1];
      DedupSorted(s[1..]);
      var rest := Dedup(s[1..]);
      if s[0] != s[1] {
        forall i | 0 <= i < |rest| ensures s[0] < rest[i] {
          assert rest[i] in s[1..];
          assert rest[0] == s[1] && NumberLe(s[0], s[1]);
        }
      }
    }
  }

  /** The normalized list holds exactly the vmids a value names, each once, in ascending order. */
  lemma NormalizedVmidsAre(value: Option<Json>)
    ensures Ascending(NormalizedVmids(value))
    ensures forall n: nat :: n in NormalizedVmids(value) <==> Names(value, n)
  {
    AsStringReads(value);
    var text := if ReadAs(value).Some? then ReadAs(value).value else "";
    var parsed := ParseAll(Split(text, ','));
    SortSorts(NumberLe, parsed);
    DedupSorted(Sort(NumberLe, parsed));
    NothingNamed();
    forall n: nat ensures n in NormalizedVmids(value) <==> Names(value, n) {
      ParseAllHas(Split(text, ','), n);
      assert n in Sort(NumberLe, parsed) <==> n in multiset(Sort(NumberLe, parsed));
      assert n in parsed <==> n in multiset(parsed);
    }
  }

  lemma NothingNamed()
    ensures ParseAll(Split("", ',')) == []
  {
    assert Split("", ',') == [""] && ParseU32(Trim("")) == None;
    assert ParseAll([""]) == ParseAll([""][1..]) && [""][1..] == [];
  }

  /** Two values compare alike exactly when they name the same vmids. */
  lemma SameVmidsExactly(a: Option<Json>, b: Option<Json>)
    ensures NormalizedVmids(a) == NormalizedVmids(b) <==> forall n: nat :: Names(a, n) <==> Names(b, n)
  {
    NormalizedVmidsAre(a);
    NormalizedVmidsAre(b);
    if forall n: nat :: Names(a, n) <==> Names(b, n) { AscendingUnique(NormalizedVmids(a), NormalizedVmids(b)); }
  }

  /** A list that was written names exactly the vmids on it. */
  lemma WrittenVmidsNamed(vmids: seq<nat>, value: Option<Json>, n: nat)
    requires AreVmids(vmids) && VmidsWritten(vmids, value)
    ensures Names(value, n) <==> n in vmids
  {
    ParseAllHas(Split(value.value.text, ','), n);
  }

  /** The parts of a property string, whether it comes as text or as an object. */
  function PartsOf(value: Option<Json>): Option<seq<string>> {
    match value
    case Some(String(text)) => Some(Parts(text))
    case Some(Object(fields)) => Some(Parts(Join(PrintFields(fields), ',')))
    case _ => None
  }

  /** The fields of an object count as key, equals sign and value, a flag being 1 or 0. */
  lemma FieldsPrinted(fields: seq<(string, Json)>, i: nat)
    requires i < |fields|
    ensures fields[i].1.String? ==> PrintFields(fields)[i] == fields[i].0 + "=" + fields[i].1.text
    ensures fields[i].1.Bool? ==> PrintFields(fields)[i] == fields[i].0 + "=" + if fields[i].1.flag then "1" else "0"
    ensures fields[i].1.Number? && fields[i].1.n >= 0 ==>
      PrintFields(fields)[i] == fields[i].0 + "=" + Decimal(fields[i].1.n)
  {}

  lemma {:induction false} PiecesKept(pieces: seq<string>, part: string)
    ensures part in KeepParts(pieces) <==> part != "" && exists piece :: piece in pieces && Trim(piece) == part
  {
    if pieces != [] {
      PiecesKept(pieces[1..], part);
      assert pieces == [pieces[0]] + pieces[1..];
    }
  }

  /** The parts of a text are its pieces between commas, without surrounding white space and empty ones. */
  lemma PartsAre(text: string, part: string)
    ensures part in Parts(text) <==> part != "" && exists piece :: piece in Split(text, ',') && Trim(piece) == part
  {
    PiecesKept(Split(text, ','), part);
  }

  lemma SortedPartsAreParts(parts: seq<string>)
    requires forall i :: 0 <= i < |parts| ==> IsPart(parts[i])
    ensures Parts(Join(Sort(StringLe, parts), ',')) == Sort(StringLe, parts)
    ensures multiset(Sort(StringLe, parts)) == multiset(parts)
  {
    var sorted := Sort(StringLe, parts);
    StringOrder();
    SortSorts(StringLe, parts);
    forall i | 0 <= i < |sorted| ensures IsPart(sorted[i]) {
      assert sorted[i] in multiset(parts);
    }
    PartsRoundTrip(sorted);
  }

  lemma SamePartsExactly(p: seq<string>, q: seq<string>)
    requires (forall i :: 0 <= i < |p| ==> IsPart(p[i])) && forall i :: 0 <= i < |q| ==> IsPart(q[i])
    ensures Join(Sort(StringLe, p), ',') == Join(Sort(StringLe, q), ',') <==> multiset(p) == multiset(q)
  {
    SortedPartsAreParts(p);
    SortedPartsAreParts(q);
    if multiset(p) == multiset(q) { SameStringsSortAlike(p, q); }
  }

  lemma NormalizedFromParts(value: Option<Json>)
    ensures NormalizedProperties(value)
            == if PartsOf(value).Some? then Some(Join(Sort(StringLe, PartsOf(value).value), ',')) else None
  {}

  /** Two property strings compare alike exactly when they have the same parts, in whatever order. */
  lemma SamePropertiesExactly(a: Option<Json>, b: Option<Json>)
    requires PartsOf(a).Some?
    ensures NormalizedProperties(a).Some?
    ensures NormalizedProperties(a) == NormalizedProperties(b)
            <==> PartsOf(b).Some? && multiset(PartsOf(a).value) == multiset(PartsOf(b).value)
  {
    NormalizedFromParts(a);
    NormalizedFromParts(b);
    if PartsOf(b).Some? { SamePartsExactly(PartsOf(a).value, PartsOf(b).value); }
  }

  /** A flag of a remote's job that is off, in one of the ways a remote may say so. */
  predicate SaysNo(value: Option<Json>) {
    match value
    case Some(Bool(flag)) => !flag
    case Some(Number(n)) => n == 0
    case Some(String(text)) => text == "0" || text == "false" || text == "no"
    case _ => false
  }

  predicate SaysYes(value: Option<Json>) {
    match value
    case Some(Bool(flag)) => flag
    case Some(Number(n)) => n != 0 && -I64_BOUND <= n < I64_BOUND
    case Some(String(text)) => text == "1" || text == "true" || text == "yes"
    case _ => false
  }

  lemma FlagsRead(value: Option<Json>)
    ensures AsBool(value) == Some(false) <==> SaysNo(value)
    ensures AsBool(value) == Some(true) <==> SaysYes(value)
  {}

  /** The remote has the wanted text under a key, if one is wanted. */
  predicate Agrees(existing: Record, key: Key, wanted: Option<string>) {
    wanted.Some? ==> ReadAs(Get(existing, key)) == wanted
  }

  /** The remote's options agree with all that the job sets. */
  predicate OptionsAgree(existing: Record, job: BackupJob, storage: string) {
    && Agrees(existing, KSchedule, if job.schedule == "" then None else Some(job.schedule))
    && Agrees(existing, KStorage, Some(storage))
    && Agrees(existing, KMode, job.mode)
    && Agrees(existing, KCompress, job.compress)
    && Agrees(existing, KNotesTemplate, job.notesTemplate)
    && Agrees(existing, KMailto, job.mailto)
    && Agrees(existing, KMailnotification, job.mailnotification)
    && Agrees(existing, KBwlimit, if job.bwlimit.Some? then Some(Decimal(job.bwlimit.value)) else None)
  }

  /** A remote's job backs up exactly the planned guests, is enabled exactly if the job is, keeps the backups the
      job wants kept, agrees with every option the job sets, and selects guests in no other way. */
  ghost predicate DoesWhatIsWanted(existing: Record, job: BackupJob, vmids: seq<nat>, storage: string) {
    && (forall n: nat :: Names(Get(existing, KVmid), n) <==> n in vmids)
    && (SaysNo(Get(existing, KEnabled)) <==> job.disable == Some(true))
    && (job.pruneBackups.Some? ==>
          && PartsOf(Get(existing, KPruneBackups)).Some?
          && multiset(PartsOf(Get(existing, KPruneBackups)).value) == multiset(Parts(job.pruneBackups.value)))
    && OptionsAgree(existing, job, storage)
    && !SaysYes(Get(existing, KAll)) && KPool !in existing
  }

  lemma KeyAgrees(existing: Record, desired: Record, key: Key, wanted: Option<string>)
    requires ReadAs(Get(desired, key)) == wanted
    ensures KeyMatches(existing, desired, key) <==> Agrees(existing, key, wanted)
  {
    AsStringReads(Get(desired, key));
    AsStringReads(Get(existing, key));
  }

  /** The text a job wants under a compared key, if any. */
  function Wanted(job: BackupJob, storage: string, key: Key): Option<string> {
    match key
    case KSchedule => if job.schedule == "" then None else Some(job.schedule)
    case KStorage => Some(storage)
    case KMode => job.mode
    case KCompress => job.compress
    case KNotesTemplate => job.notesTemplate
    case KMailto => job.mailto
    case KMailnotification => job.mailnotification
    case KBwlimit => if job.bwlimit.Some? then Some(Decimal(job.bwlimit.value)) else None
    case _ => None
  }

  lemma DesiredReads(job: BackupJob, plan: RemotePlan, storage: string, key: Key)
    requires Compared(key)
    ensures ReadAs(Get(Desired(job, plan, storage), key)) == Wanted(job, storage, key)
  {
    DesiredMeans(job, plan, storage);
  }

  lemma AgreeEach(existing: Record, job: BackupJob, storage: string)
    ensures OptionsAgree(existing, job, storage)
            <==> forall key :: Compared(key) ==> Agrees(existing, key, Wanted(job, storage, key))
  {
    if forall key :: Compared(key) ==> Agrees(existing, key, Wanted(job, storage, key)) {
      assert Agrees(existing, KSchedule, Wanted(job, storage, KSchedule));
      assert Agrees(existing, KStorage, Wanted(job, storage, KStorage));
      assert Agrees(existing, KMode, Wanted(job, storage, KMode));
      assert Agrees(existing, KCompress, Wanted(job, storage, KCompress));
      assert Agrees(existing, KNotesTemplate, Wanted(job, storage, KNotesTemplate));
      assert Agrees(existing, KMailto, Wanted(job, storage, KMailto));
      assert Agrees(existing, KMailnotification, Wanted(job, storage, KMailnotification));
      assert Agrees(existing, KBwlimit, Wanted(job, storage, KBwlimit));
    }
  }

  lemma OptionsCompared(existing: Record, job: BackupJob, plan: RemotePlan, storage: string)
    ensures (forall key :: Compared(key) ==> KeyMatches(existing, Desired(job, plan, storage), key))
            <==> OptionsAgree(existing, job, storage)
  {
    AgreeEach(existing, job, storage);
    forall key | Compared(key)
      ensures KeyMatches(existing, Desired(job, plan, storage), key)
              <==> Agrees(existing, key, Wanted(job, storage, key))
    {
      DesiredReads(job, plan, storage, key);
      KeyAgrees(existing, Desired(job, plan, storage), key, Wanted(job, storage, key));
    }
  }

  lemma VmidsCompared(existing: Record, job: BackupJob, plan: RemotePlan, storage: string)
    requires AreVmids(plan.vmids)
    ensures NormalizedVmids(Get(existing, KVmid)) == NormalizedVmids(Get(Desired(job, plan, storage), KVmid))
            <==> forall n: nat :: Names(Get(existing, KVmid), n) <==> n in plan.vmids
  {
    var wanted := Get(Desired(job, plan, storage), KVmid);
    DesiredMeans(job, plan, storage);
    SameVmidsExactly(Get(existing, KVmid), wanted);
    forall n: nat ensures Names(wanted, n) <==> n in plan.vmids { WrittenVmidsNamed(plan.vmids, wanted, n); }
  }

  lemma RetentionCompared(existing: Record, job: BackupJob, plan: RemotePlan, storage: string)
    ensures var desired := NormalizedProperties(Get(Desired(job, plan, storage), KPruneBackups));
      var there := Get(existing, KPruneBackups);
      (desired.Some? ==> desired == NormalizedProperties(there))
      <==> (job.pruneBackups.Some? ==>
              PartsOf(there).Some? && multiset(PartsOf(there).value) == multiset(Parts(job.pruneBackups.value)))
  {
    DesiredMeans(job, plan, storage);
    if job.pruneBackups.Some? {
      SamePropertiesExactly(Get(Desired(job, plan, storage), KPruneBackups), Get(existing, KPruneBackups));
    }
  }

  /** A remote's job is in sync exactly when it does what the job and its plan want. */
  lemma InSyncExactly(existing: Record, job: BackupJob, plan: RemotePlan, storage: string)
    requires AreVmids(plan.vmids)
    ensures InSync(existing, Desired(job, plan, storage)) <==> DoesWhatIsWanted(existing, job, plan.vmids, storage)
  {
    DesiredMeans(job, plan, storage);
    VmidsCompared(existing, job, plan, storage);
    RetentionCompared(existing, job, plan, storage);
    OptionsCompared(existing, job, plan, storage);
    FlagsRead(Get(existing, KEnabled));
    FlagsRead(Get(existing, KAll));
    FlagsRead(Get(Desired(job, plan, storage), KEnabled));
  }
}
