/** What a job should look like on a remote, and comparing it with what the remote reports
    (server/src/backup_jobs.rs). */
module JobPayload {
  import opened BackupJobs
  import opened BackupPlan
  import opened Machine
  import opened Ordering
  import opened Sequences
  import opened Text
  import opened Wrappers

  /** A JSON value; numbers are whole numbers. */
  datatype Json =
    | Null
    | Bool(flag: bool)
    | Number(n: int)
    | String(text: string)
    | Array(items: seq<Json>)
    | Object(fields: seq<(string, Json)>)

  /** The keys of a `cluster/backup` job that PDM writes, compares or deletes, and all others. */
  datatype Key =
    | KId | KVmid | KStorage | KEnabled | KComment | KSchedule | KMode | KCompress | KPruneBackups
    | KNotesTemplate | KMailto | KMailnotification | KBwlimit | KAll | KPool | KExclude | KNode
    | KOther(name: string)

  type Record = map<Key, Json>

  function Get(record: Record, key: Key): Option<Json> {
    if key in record then Some(record[key]) else None
  }

  function PrintNumber(n: int): string {
    if n < 0 then "-" + Decimal(-n) else Decimal(n)
  }

  function PrintBool(flag: bool): string { if flag then "true" else "false" }

  /** The text form of a value inside an object; only the forms that occur there matter. */
  function PrintField(value: Json): string {
    match value
    case String(text) => text
    case Bool(flag) => if flag then "1" else "0"
    case Number(n) => PrintNumber(n)
    case _ => "null"
  }

  function PrintFields(fields: seq<(string, Json)>): (r: seq<string>)
    ensures |r| == |fields|
  {
    seq(|fields|, i requires 0 <= i < |fields| => fields[i].0 + "=" + PrintField(fields[i].1))
  }

  function AsBool(value: Option<Json>): Option<bool> {
    match value
    case Some(Bool(flag)) => Some(flag)
    case Some(Number(n)) => if -I64_BOUND <= n < I64_BOUND then Some(n != 0) else None
    case Some(String(text)) =>
      if text in ["1", "true", "yes"] then Some(true)
      else if text in ["0", "false", "no"] then Some(false)
      else None
    case _ => None
  }

  function AsString(value: Option<Json>): Option<string> {
    match value
    case Some(String(text)) => Some(text)
    case Some(Number(n)) => Some(PrintNumber(n))
    case Some(Bool(flag)) => Some(PrintBool(flag))
    case _ => None
  }

  /** The entries of a list that are numbers. */
  function ParseAll(entries: seq<string>): seq<nat> {
    if entries == [] then []
    else
      match ParseU32(Trim(entries[0]))
      case Some(n) => [n] + ParseAll(entries[1..])
      case None => ParseAll(entries[1..])
  }

  function Dedup(s: seq<nat>): seq<nat> {
    if |s| < 2 then s
    else if s[0] == s[1] then Dedup(s[1..])
    else [s[0]] + Dedup(s[1..])
  }

  function NormalizedVmids(value: Option<Json>): seq<nat> {
    var text := match AsString(value) case Some(text) => text case None => "";
    Dedup(Sort(NumberLe, ParseAll(Split(text, ','))))
  }

  function KeepParts(pieces: seq<string>): (r: seq<string>)
    ensures (forall i :: 0 <= i < |pieces| ==> ',' !in pieces[i]) ==> forall i :: 0 <= i < |r| ==> IsPart(r[i])
  {
    if pieces == [] then []
    else
      TrimTrims(pieces[0], ',');
      (if Trim(pieces[0]) == "" then [] else [Trim(pieces[0])]) + KeepParts(pieces[1..])
  }

  /** The non-empty parts of a property string, without surrounding white space. */
  function Parts(text: string): (r: seq<string>)
    ensures forall i :: 0 <= i < |r| ==> IsPart(r[i])
  {
    KeepParts(Split(text, ','))
  }

  predicate IsPart(part: string) {
    part != "" && Trimmed(part) && ',' !in part
  }

  function NormalizedProperties(value: Option<Json>): Option<string> {
    match value
    case Some(String(text)) => Some(Join(Sort(StringLe, Parts(text)), ','))
    case Some(Object(fields)) => Some(Join(Sort(StringLe, Parts(Join(PrintFields(fields), ','))), ','))
    case _ => None
  }

  const COMPARED_KEYS := [KSchedule, KStorage, KMode, KCompress, KNotesTemplate, KMailto, KMailnotification, KBwlimit]

  predicate Compared(key: Key) {
    match key
    case KSchedule | KStorage | KMode | KCompress | KNotesTemplate | KMailto | KMailnotification | KBwlimit => true
    case _ => false
  }

  /** The value PDM wants for a key, if any, is what the remote reports. */
  predicate KeyMatches(existing: Record, desired: Record, key: Key) {
    AsString(Get(desired, key)).Some? ==> AsString(Get(desired, key)) == AsString(Get(existing, key))
  }

  predicate Enabled(record: Record) { AsBool(Get(record, KEnabled)) != Some(false) }

  ghost predicate InSync(existing: Record, desired: Record) {
    && NormalizedVmids(Get(existing, KVmid)) == NormalizedVmids(Get(desired, KVmid))
    && Enabled(existing) == Enabled(desired)
    && (NormalizedProperties(Get(desired, KPruneBackups)).Some? ==>
          NormalizedProperties(Get(desired, KPruneBackups)) == NormalizedProperties(Get(existing, KPruneBackups)))
    && (forall key :: Compared(key) ==> KeyMatches(existing, desired, key))
    && AsBool(Get(existing, KAll)) != Some(true)
    && KPool !in existing
  }

  /** `is_in_sync`. */
  method IsInSync(existing: Record, desired: Record) returns (same: bool)
    ensures same <==> InSync(existing, desired)
  {
    if NormalizedVmids(Get(existing, KVmid)) != NormalizedVmids(Get(desired, KVmid)) { return false; }
    if Enabled(existing) != Enabled(desired) { return false; }
    var desiredPrune := NormalizedProperties(Get(desired, KPruneBackups));
    if desiredPrune.Some? && desiredPrune != NormalizedProperties(Get(existing, KPruneBackups)) { return false; }
    var keysMatch := KeysMatch(existing, desired);
    same := keysMatch && AsBool(Get(existing, KAll)) != Some(true) && KPool !in existing;
  }

  /** The loop over the compared keys. */
  method KeysMatch(existing: Record, desired: Record) returns (same: bool)
    ensures same <==> forall key :: Compared(key) ==> KeyMatches(existing, desired, key)
  {
    for i := 0 to |COMPARED_KEYS|
      invariant forall k :: 0 <= k < i ==> KeyMatches(existing, desired, COMPARED_KEYS[k])
    {
      var key := COMPARED_KEYS[i];
      ComparedKey(i);
      var desiredValue := AsString(Get(desired, key));
      if desiredValue.Some? && desiredValue != AsString(Get(existing, key)) {
        assert !KeyMatches(existing, desired, key);
        return false;
      }
    }
    AllCompared();
    same := true;
  }

  lemma ComparedKey(i: nat)
    requires i < |COMPARED_KEYS|
    ensures Compared(COMPARED_KEYS[i])
  {}

  lemma AllCompared()
    ensures forall key :: Compared(key) ==> exists i :: 0 <= i < |COMPARED_KEYS| && COMPARED_KEYS[i] == key
  {
    var keys := COMPARED_KEYS;
    assert keys[0] == KSchedule && keys[1] == KStorage && keys[2] == KMode && keys[3] == KCompress;
    assert keys[4] == KNotesTemplate && keys[5] == KMailto && keys[6] == KMailnotification && keys[7] == KBwlimit;
  }

  function VmidText(vmids: seq<nat>): string { Join(Map(Decimal, vmids), ',') }

  function TextOf(value: Option<string>): Option<Json> {
    if value.Some? then Some(String(value.value)) else None
  }

  ghost predicate AreVmids(vmids: seq<nat>) { forall i :: 0 <= i < |vmids| ==> vmids[i] < U32 }

  lemma {:induction false} ParsePrinted(vmids: seq<nat>)
    requires AreVmids(vmids)
    ensures ParseAll(Map(Decimal, vmids)) == vmids
  {
    if vmids != [] {
      var entries := Map(Decimal, vmids);
      assert entries[1..] == Map(Decimal, vmids[1..]);
      ParsePrinted(vmids[1..]);
      DecimalIsPlain(vmids[0]);
      TrimmedStays(Decimal(vmids[0]));
      ParseDecimal(vmids[0]);
    }
  }

  /** Reading a printed list of vmids gives the list back. */
  lemma VmidTextRoundTrip(vmids: seq<nat>)
    requires AreVmids(vmids)
    ensures ParseAll(Split(VmidText(vmids), ',')) == vmids
  {
    if vmids == [] {
      assert Map(Decimal, vmids) == [];
      assert Split("", ',') == [""];
      assert ParseU32(Trim("")) == None;
      assert ParseAll([""]) == ParseAll([""][1..]) && [""][1..] == [];
    } else {
      var entries := Map(Decimal, vmids);
      forall i | 0 <= i < |entries| ensures ',' !in entries[i] { DecimalIsPlain(vmids[i]); }
      SplitJoin(entries, ',');
      ParsePrinted(vmids);
    }
  }

  /** What PDM wants a key of the job to be, if it says anything about it. */
  function DesiredValue(job: BackupJob, vmids: seq<nat>, storage: string, key: Key): Option<Json> {
    match key
    case KVmid => Some(String(VmidText(vmids)))
    case KStorage => Some(String(storage))
    case KEnabled => Some(Number(if job.disable == Some(true) then 0 else 1))
    case KComment => Some(String(if job.comment.Some? then job.comment.value else "PDM job '" + job.id + "'"))
    case _ => OptionOr(job, key, None)
  }

  const CREATED_KEYS := {
    KVmid, KStorage, KEnabled, KComment, KSchedule, KMode, KCompress, KPruneBackups, KNotesTemplate, KMailto,
    KMailnotification, KBwlimit }

  function Desired(job: BackupJob, plan: RemotePlan, storage: string): (r: Record)
    ensures forall key :: Get(r, key) == DesiredValue(job, plan.vmids, storage, key)
  {
    map key | key in CREATED_KEYS && DesiredValue(job, plan.vmids, storage, key).Some?
      :: DesiredValue(job, plan.vmids, storage, key).value
  }

  /** A key holds the given text, or is not there. */
  predicate Holds(record: Record, key: Key, text: Option<string>) {
    Get(record, key) == if text.Some? then Some(String(text.value)) else None
  }

  /** What a payload has to say: the planned vmids as a list that reads back, the storage, whether the job is
      enabled, its comment or one that names the job, and every option that is set; and nothing else. */
  ghost predicate PayloadMeans(job: BackupJob, vmids: seq<nat>, storage: string, payload: Record) {
    && VmidsWritten(vmids, Get(payload, KVmid))
    && Get(payload, KStorage) == Some(String(storage))
    && Get(payload, KEnabled) == Some(Number(if job.disable == Some(true) then 0 else 1))
    && Get(payload, KComment)
       == Some(String(if job.comment.Some? then job.comment.value else "PDM job '" + job.id + "'"))
    && OptionsWritten(job, payload)
    && forall key :: key in payload ==> MayBeWritten(key)
  }

  predicate OptionsWritten(job: BackupJob, payload: Record) {
    && Holds(payload, KSchedule, if job.schedule == "" then None else Some(job.schedule))
    && Holds(payload, KMode, job.mode)
    && Holds(payload, KCompress, job.compress)
    && Holds(payload, KPruneBackups, job.pruneBackups)
    && Holds(payload, KNotesTemplate, job.notesTemplate)
    && Holds(payload, KMailto, job.mailto)
    && Holds(payload, KMailnotification, job.mailnotification)
    && Get(payload, KBwlimit) == (if job.bwlimit.Some? then Some(Number(job.bwlimit.value)) else None)
  }

  /** The keys a payload may have. */
  predicate MayBeWritten(key: Key) {
    match key
    case KVmid | KStorage | KEnabled | KComment | KSchedule | KMode | KCompress | KPruneBackups => true
    case KNotesTemplate | KMailto | KMailnotification | KBwlimit => true
    case _ => false
  }

  /** The numbers in decimal, separated by commas. */
  ghost predicate VmidsWritten(vmids: seq<nat>, value: Option<Json>) {
    && value.Some? && value.value.String?
    && (vmids == [] ==> value.value.text == "")
    && (vmids != [] ==> Split(value.value.text, ',') == Map(Decimal, vmids))
    && (AreVmids(vmids) ==> ParseAll(Split(value.value.text, ',')) == vmids)
  }

  lemma VmidsAreWritten(vmids: seq<nat>)
    ensures VmidsWritten(vmids, Some(String(VmidText(vmids))))
  {
    if AreVmids(vmids) { VmidTextRoundTrip(vmids); }
    if vmids != [] {
      var entries := Map(Decimal, vmids);
      forall i | 0 <= i < |entries| ensures ',' !in entries[i] { DecimalIsPlain(vmids[i]); }
      SplitJoin(entries, ',');
    }
  }

  lemma DesiredMeans(job: BackupJob, plan: RemotePlan, storage: string)
    ensures PayloadMeans(job, plan.vmids, storage, Desired(job, plan, storage))
  {
    VmidsAreWritten(plan.vmids);
    DesiredOptions(job, plan, storage);
    forall key | key in Desired(job, plan, storage) ensures MayBeWritten(key) { CreatedMayBeWritten(key); }
  }

  lemma DesiredOptions(job: BackupJob, plan: RemotePlan, storage: string)
    ensures OptionsWritten(job, Desired(job, plan, storage))
  {
    var payload := Desired(job, plan, storage);
    assert forall key :: Get(payload, key) == DesiredValue(job, plan.vmids, storage, key);
  }

  lemma CreatedMayBeWritten(key: Key)
    requires key in CREATED_KEYS
    ensures MayBeWritten(key)
  {}

  /** `desired_payload` builds exactly the wanted keys. */
  method DesiredPayload(job: BackupJob, plan: RemotePlan, storage: string) returns (payload: Record)
    ensures payload == Desired(job, plan, storage) && PayloadMeans(job, plan.vmids, storage, payload)
  {
    payload := BuildPayload(job, plan, storage);
    DesiredMeans(job, plan, storage);
  }

  method BuildPayload(job: BackupJob, plan: RemotePlan, storage: string) returns (payload: Record)
    ensures payload == Desired(job, plan, storage)
  {
    var always := map[
      KVmid := String(Join(Map(Decimal, plan.vmids), ',')),
      KStorage := String(storage),
      KEnabled := Number(if job.disable == Some(true) then 0 else 1),
      KComment := String(if job.comment.Some? then job.comment.value else "PDM job '" + job.id + "'")
    ];
    payload := WithOptions(job, always);
    forall key ensures Get(payload, key) == DesiredValue(job, plan.vmids, storage, key) {
      assert Get(payload, key) == OptionOr(job, key, Get(always, key));
    }
    SameRecord(payload, Desired(job, plan, storage));
  }

  const OPTIONAL_KEYS := [
    KSchedule, KMode, KCompress, KPruneBackups, KNotesTemplate, KMailto, KMailnotification, KBwlimit]

  method WithOptions(job: BackupJob, always: Record) returns (payload: Record)
    ensures forall key :: Get(payload, key) == OptionOr(job, key, Get(always, key))
  {
    payload := always;
    for i := 0 to |OPTIONAL_KEYS|
      invariant forall key ::
        Get(payload, key)
        == if key in OPTIONAL_KEYS[..i] then OptionOr(job, key, Get(always, key)) else Get(always, key)
    {
      var key := OPTIONAL_KEYS[i];
      assert OPTIONAL_KEYS[..i + 1] == OPTIONAL_KEYS[..i] + [key];
      var value := Optional(job, key);
      if value.Some? { payload := payload[key := value.value]; }
    }
    AllOptional(job);
  }

  lemma AllOptional(job: BackupJob)
    ensures OPTIONAL_KEYS[..|OPTIONAL_KEYS|] == OPTIONAL_KEYS
    ensures forall key :: key !in OPTIONAL_KEYS ==> Optional(job, key) == None
  {}

  function ScheduleOf(job: BackupJob): Option<Json> {
    if job.schedule != "" then Some(String(job.schedule)) else None
  }

  function LimitOf(job: BackupJob): Option<Json> {
    if job.bwlimit.Some? then Some(Number(job.bwlimit.value)) else None
  }

  /** The value of an optional key, if the job sets it. */
  function Optional(job: BackupJob, key: Key): Option<Json> {
    match key
    case KSchedule => ScheduleOf(job)
    case KMode => TextOf(job.mode)
    case KCompress => TextOf(job.compress)
    case KPruneBackups => TextOf(job.pruneBackups)
    case KNotesTemplate => TextOf(job.notesTemplate)
    case KMailto => TextOf(job.mailto)
    case KMailnotification => TextOf(job.mailnotification)
    case KBwlimit => LimitOf(job)
    case _ => None
  }

  function OptionOr(job: BackupJob, key: Key, otherwise: Option<Json>): Option<Json> {
    if Optional(job, key).Some? then Optional(job, key) else otherwise
  }

  lemma SameRecord(a: Record, b: Record)
    requires forall key :: Get(a, key) == Get(b, key)
    ensures a == b
  {
    forall key ensures key in a <==> key in b { assert Get(a, key) == Get(b, key); }
    forall key | key in a ensures a[key] == b[key] { assert Get(a, key) == Get(b, key); }
  }

  const DELETED_KEYS := {KAll, KPool, KExclude, KNode}

  /** A new job on a remote. */
  function Post(payload: Record, id: string): Record { payload[KId := String(id)] }

  /** An update: the given keys replace what is there, the deleted ones go, the rest stays. */
  function Put(existing: Record, payload: Record): Record { (existing + payload) - DELETED_KEYS }
}
