/** The namespaced cache with timestamps (server/src/namespaced_cache.rs). Every operation runs while the
    lock of its namespace is held, so operations on a namespace happen one after the other. File system
    errors are left out; a file whose content cannot be read back is `Corrupt`. */
module NamespacedCache {
  import opened Machine
  import opened Text
  import opened Wrappers
  import RemoteUpid

  predicate IsI64(x: int) { -I64_BOUND <= x < I64_BOUND }

  /** The result of a subtraction of two signed 64-bit numbers. */
  function Wrap(x: int): int {
    if x >= I64_BOUND then x - 2 * I64_BOUND else if x < -I64_BOUND then x + 2 * I64_BOUND else x
  }

  datatype File<V> = Entry(timestamp: int, value: V) | Corrupt

  datatype Error = InvalidKey | InvalidNamespace | Serde

  predicate IsExpired(timestamp: int, now: int, maxAge: int) {
    maxAge == 0 || var diff := Wrap(now - timestamp); diff >= maxAge || diff < 0
  }

  /** An entry counts as fresh exactly when it is not from the future and younger than the maximal age,
      unless the subtraction wraps around from far below; it never does for a clock past the epoch. */
  lemma FreshExactly(timestamp: int, now: int, maxAge: int)
    requires IsI64(timestamp) && IsI64(now) && IsI64(maxAge)
    ensures (!IsExpired(timestamp, now, maxAge) <==> 0 <= now - timestamp < maxAge)
            <==> !(now - timestamp < -I64_BOUND && now - timestamp + 2 * I64_BOUND < maxAge)
    ensures now >= 0 ==> (!IsExpired(timestamp, now, maxAge) <==> 0 <= now - timestamp < maxAge)
  {}

  /** With the clock before the epoch, an entry from the far future passes for fresh. */
  lemma WrappedLooksFresh()
    ensures !IsExpired(I64_BOUND - 1, -3, I64_BOUND - 1) && I64_BOUND - 1 > -3
  {}

  function GetPath(base: string, namespace: string, key: string): string {
    base + "/" + namespace + "/" + key + ".json"
  }

  function LockPath(base: string, namespace: string): string {
    base + "/." + namespace + ".lock"
  }

  predicate SafeId(id: string) { RemoteUpid.SafeId(id) }

  lemma SplitPath(base: string, namespace: string, key: string)
    requires SafeId(namespace)
    ensures SplitOnce(GetPath(base, namespace, key)[|base| + 1..], '/') == Some((namespace, key + ".json"))
  {
    assert GetPath(base, namespace, key)[|base| + 1..] == namespace + "/" + (key + ".json");
    SplitOnceAt(namespace, '/', key + ".json");
  }

  lemma PathForm(base: string, namespace: string, key: string)
    ensures GetPath(base, namespace, key) == base + "/" + namespace + "/" + key + ".json"
    ensures LockPath(base, namespace) == base + "/." + namespace + ".lock"
  {}

  /** Different entries have different files, and no entry has the file of a lock. */
  lemma PathsDiffer(base: string, n: string, k: string, m: string, l: string)
    requires SafeId(n) && SafeId(k) && SafeId(m) && SafeId(l)
    ensures GetPath(base, n, k) == GetPath(base, m, l) ==> n == m && k == l
    ensures GetPath(base, n, k) != LockPath(base, m)
  {
    if GetPath(base, n, k) == GetPath(base, m, l) {
      SplitPath(base, n, k);
      SplitPath(base, m, l);
      assert (k + ".json")[..|k|] == k && (l + ".json")[..|l|] == l;
    }
    assert GetPath(base, n, k)[|base| + 1] == n[0];
    assert LockPath(base, m)[|base| + 1] == '.';
  }

  /** What `set_if_newer` leaves in the file: an entry with a later timestamp stays. */
  function Newer<V>(file: Option<File<V>>, value: V, timestamp: int): File<V> {
    match file
    case Some(Entry(t, v)) => if t > timestamp then Entry(t, v) else Entry(timestamp, value)
    case _ => Entry(timestamp, value)
  }

  predicate HoldsLater<V>(file: Option<File<V>>, timestamp: int) {
    file.Some? && file.value.Entry? && file.value.timestamp > timestamp
  }

  datatype Call<V> = Call(namespace: string, key: string, value: V, timestamp: int)

  type Files<V> = map<string, File<V>>

  function FileAt<V>(files: Files<V>, path: string): Option<File<V>> {
    if path in files then Some(files[path]) else None
  }

  function SetNewer<V>(files: Files<V>, base: string, c: Call<V>): Files<V> {
    var path := GetPath(base, c.namespace, c.key);
    files[path := Newer(FileAt(files, path), c.value, c.timestamp)]
  }

  /** The files after the calls, in the order in which they got their locks. */
  function AfterCalls<V>(files: Files<V>, base: string, calls: seq<Call<V>>): Files<V> {
    if calls == [] then files
    else SetNewer(AfterCalls(files, base, calls[..|calls| - 1]), base, calls[|calls| - 1])
  }

  predicate IsFor<V>(c: Call<V>, namespace: string, key: string) { c.namespace == namespace && c.key == key }

  ghost predicate ValidCalls<V>(calls: seq<Call<V>>) {
    forall i :: 0 <= i < |calls| ==> SafeId(calls[i].namespace) && SafeId(calls[i].key)
  }

  /** The call whose value is stored in the end: of those for the entry, the last one with the greatest
      timestamp. */
  ghost predicate Wins<V>(calls: seq<Call<V>>, namespace: string, key: string, w: nat) {
    && w < |calls| && IsFor(calls[w], namespace, key)
    && forall i :: 0 <= i < |calls| && IsFor(calls[i], namespace, key) ==>
      calls[i].timestamp <= calls[w].timestamp && (i > w ==> calls[i].timestamp < calls[w].timestamp)
  }

  /** Finds that call, if there is one for the entry. */
  ghost function Winner<V>(calls: seq<Call<V>>, namespace: string, key: string): (w: Option<nat>)
    ensures w.Some? ==> w.value < |calls| && IsFor(calls[w.value], namespace, key)
  {
    if calls == [] then None
    else
      var last := |calls| - 1;
      var w := Winner(calls[..last], namespace, key);
      if IsFor(calls[last], namespace, key) && (w.None? || calls[w.value].timestamp <= calls[last].timestamp)
      then Some(last) else w
  }

  lemma {:induction false} WinnerWins<V>(calls: seq<Call<V>>, namespace: string, key: string)
    ensures match Winner(calls, namespace, key)
            case Some(w) => Wins(calls, namespace, key, w)
            case None => forall i :: 0 <= i < |calls| ==> !IsFor(calls[i], namespace, key)
  {
    if calls != [] {
      var last := |calls| - 1;
      WinnerWins(calls[..last], namespace, key);
      assert forall i :: 0 <= i < last ==> calls[i] == calls[..last][i];
    }
  }

  /** What an entry holds after the calls, given what it held before and the winning call. */
  ghost function Outcome<V>(before: Option<File<V>>, calls: seq<Call<V>>, w: Option<nat>): Option<File<V>>
    requires w.Some? ==> w.value < |calls|
  {
    if w.None? || HoldsLater(before, calls[w.value].timestamp) then before
    else Some(Entry(calls[w.value].timestamp, calls[w.value].value))
  }

  lemma {:induction false} WinnerStored<V>(files: Files<V>, base: string, calls: seq<Call<V>>, namespace: string,
                                           key: string)
    requires ValidCalls(calls) && SafeId(namespace) && SafeId(key)
    ensures FileAt(AfterCalls(files, base, calls), GetPath(base, namespace, key))
            == Outcome(FileAt(files, GetPath(base, namespace, key)), calls, Winner(calls, namespace, key))
  {
    if calls != [] {
      var last := |calls| - 1;
      WinnerStored(files, base, calls[..last], namespace, key);
      PathsDiffer(base, calls[last].namespace, calls[last].key, namespace, key);
    }
  }

  /** Over any run of `set_if_newer` calls on any entries, from any files: an entry holds afterwards the
      greatest timestamp submitted for it and the value of the last call with it, unless it held a later
      one from the start; an entry no call was for is unchanged. */
  lemma LastOfGreatestWins<V>(files: Files<V>, base: string, calls: seq<Call<V>>, namespace: string, key: string)
    requires ValidCalls(calls) && SafeId(namespace) && SafeId(key)
    ensures
      var before, after := FileAt(files, GetPath(base, namespace, key)),
                           FileAt(AfterCalls(files, base, calls), GetPath(base, namespace, key));
      if forall i :: 0 <= i < |calls| ==> !IsFor(calls[i], namespace, key) then after == before
      else exists w: nat :: Wins(calls, namespace, key, w) && after == Outcome(before, calls, Some(w))
  {
    WinnerStored(files, base, calls, namespace, key);
    WinnerWins(calls, namespace, key);
  }

  /** A call after a run is turned down exactly when the entry held a strictly later timestamp from the
      start or an earlier call for it had one. */
  lemma TurnedDownByLater<V>(files: Files<V>, base: string, calls: seq<Call<V>>, c: Call<V>)
    requires ValidCalls(calls) && SafeId(c.namespace) && SafeId(c.key)
    ensures HoldsLater(FileAt(AfterCalls(files, base, calls), GetPath(base, c.namespace, c.key)), c.timestamp)
            <==> || HoldsLater(FileAt(files, GetPath(base, c.namespace, c.key)), c.timestamp)
                 || exists i ::
                   0 <= i < |calls| && IsFor(calls[i], c.namespace, c.key) && calls[i].timestamp > c.timestamp
  {
    WinnerStored(files, base, calls, c.namespace, c.key);
    WinnerWins(calls, c.namespace, c.key);
  }

  /** The check made when a namespace is opened, and the check every operation then makes of its key. */
  function Refused(namespace: string, key: string): Option<Error> {
    if !SafeId(namespace) then Some(InvalidNamespace)
    else if !SafeId(key) then Some(InvalidKey)
    else None
  }

  /** Names are refused exactly if they are empty, begin with a dot, or hold a '/', ':' or '!'; the namespace is
      looked at first. */
  lemma RefusedMeans(namespace: string, key: string)
    ensures Refused(namespace, key) == Some(InvalidNamespace) <==> !IsSafe(namespace)
    ensures Refused(namespace, key) == Some(InvalidKey) <==> IsSafe(namespace) && !IsSafe(key)
    ensures Refused(namespace, key) == None <==> IsSafe(namespace) && IsSafe(key)
  {}

  predicate IsSafe(id: string) {
    id != "" && id[0] != '.' && '/' !in id && ':' !in id && '!' !in id
  }

  /** The store behind the namespaces; each method opens a namespace and does one operation in it. */
  class Store<V(==)> {
    const base: string
    var files: Files<V>

    constructor (base: string)
      ensures this.base == base && files == map[]
    {
      this.base := base;
      files := map[];
    }

    /** `get` and `get_with_max_age`: a value is returned exactly when the entry is there and, if an age is
        given, fresh; a maximal age of 0 does not even look. */
    method Get(namespace: string, key: string, maxAge: Option<int>, now: int) returns (r: Result<Option<V>, Error>)
      ensures Refused(namespace, key).Some? ==> r == Err(Refused(namespace, key).value)
      ensures Refused(namespace, key).None? ==>
        var file := FileAt(files, GetPath(base, namespace, key));
        && (r.Err? <==> file == Some(Corrupt) && maxAge != Some(0))
        && (r.Err? ==> r.error == Serde)
        && (forall v :: r == Ok(Some(v)) <==>
              && file.Some? && file.value.Entry? && file.value.value == v
              && (maxAge.Some? ==> !IsExpired(file.value.timestamp, now, maxAge.value)))
    {
      if Refused(namespace, key).Some? { return Err(Refused(namespace, key).value); }
      if maxAge == Some(0) { return Ok(None); }
      var path := GetPath(base, namespace, key);
      if path !in files { return Ok(None); }
      match files[path]
      case Corrupt => return Err(Serde);
      case Entry(timestamp, value) =>
        if maxAge.Some? && IsExpired(timestamp, now, maxAge.value) { return Ok(None); }
        return Ok(Some(value));
    }

    method Set(namespace: string, key: string, value: V, timestamp: int) returns (r: Result<(), Error>)
      modifies this
      ensures Refused(namespace, key).Some? ==> r == Err(Refused(namespace, key).value) && files == old(files)
      ensures Refused(namespace, key).None? ==>
        r == Ok(()) && files == old(files)[GetPath(base, namespace, key) := Entry(timestamp, value)]
    {
      if Refused(namespace, key).Some? { return Err(Refused(namespace, key).value); }
      files := files[GetPath(base, namespace, key) := Entry(timestamp, value)];
      r := Ok(());
    }

    /** Returns the existing value exactly when its timestamp is strictly later, and then changes nothing. */
    method SetIfNewer(namespace: string, key: string, value: V, timestamp: int) returns (r: Result<Option<V>, Error>)
      modifies this
      ensures Refused(namespace, key).Some? ==> r == Err(Refused(namespace, key).value) && files == old(files)
      ensures Refused(namespace, key).None? ==>
        var file := FileAt(old(files), GetPath(base, namespace, key));
        && files == SetNewer(old(files), base, Call(namespace, key, value, timestamp))
        && r == Ok(if HoldsLater(file, timestamp) then Some(file.value.value) else None)
        && (r != Ok(None) ==> files == old(files))
    {
      if Refused(namespace, key).Some? { return Err(Refused(namespace, key).value); }
      var path := GetPath(base, namespace, key);
      if path in files {
        match files[path]
        case Entry(existing, kept) =>
          if existing > timestamp { return Ok(Some(kept)); }
        case Corrupt =>
      }
      files := files[path := Entry(timestamp, value)];
      r := Ok(None);
    }

    method Remove(namespace: string, key: string) returns (r: Result<(), Error>)
      modifies this
      ensures Refused(namespace, key).Some? ==> r == Err(Refused(namespace, key).value) && files == old(files)
      ensures Refused(namespace, key).None? ==> r == Ok(()) && files == old(files) - {GetPath(base, namespace, key)}
    {
      if Refused(namespace, key).Some? { return Err(Refused(namespace, key).value); }
      files := files - {GetPath(base, namespace, key)};
      r := Ok(());
    }
  }
}
