/** Parsing and printing the id of a task on a remote (lib/pdm-api-types/src/remote_upid.rs) and the
    client's variant for a given remote (cli/client/src/upid.rs).

    Whether a text is a PVE or a PBS task id is decided by parsers that are not modelled: `pve` and
    `pbs` tell which texts they accept. */
module RemoteUpid {
  import opened Remotes
  import opened Text
  import opened Wrappers

  datatype RemoteUpid = RemoteUpid(remote: string, ty: RemoteType, upid: string)

  datatype Error = MissingSeparator | BadRemote | BadType | BadUpid | RemoteMismatch | NoRemote

  /** What the model takes a safe id to be: not empty, not starting with a dot, and without a slash,
      a colon or an exclamation mark. */
  predicate SafeId(id: string) {
    id != [] && id[0] != '.' && '/' !in id && ':' !in id && '!' !in id
  }

  function PrintType(ty: RemoteType): string {
    match ty
    case Pve => "pve"
    case Pbs => "pbs"
  }

  function ParseType(s: string): Result<RemoteType, Error> {
    if s == "pve" then Ok(Pve) else if s == "pbs" then Ok(Pbs) else Err(BadType)
  }

  function DeduceType(upid: string, pve: string -> bool, pbs: string -> bool): Result<RemoteType, Error> {
    if pve(upid) then Ok(Pve) else if pbs(upid) then Ok(Pbs) else Err(BadUpid)
  }

  function FromPair(remote: string, upid: string, pve: string -> bool, pbs: string -> bool)
    : Result<RemoteUpid, Error>
  {
    if !SafeId(remote) then Err(BadRemote)
    else
      match DeduceType(upid, pve, pbs)
      case Err(error) => Err(error)
      case Ok(ty) => Ok(RemoteUpid(remote, ty, upid))
  }

  function FromTriple(ty: string, remote: string, upid: string): Result<RemoteUpid, Error> {
    if !SafeId(remote) then Err(BadRemote)
    else
      match ParseType(ty)
      case Err(error) => Err(error)
      case Ok(parsed) => Ok(RemoteUpid(remote, parsed, upid))
  }

  function Parse(s: string, pve: string -> bool, pbs: string -> bool): Result<RemoteUpid, Error> {
    match SplitOnce(s, '!')
    case None => Err(MissingSeparator)
    case Some((remoteAndType, upid)) =>
      match SplitOnce(remoteAndType, ':')
      case Some((ty, remote)) => FromTriple(ty, remote, upid)
      case None => FromPair(remoteAndType, upid, pve, pbs)
  }

  function Print(u: RemoteUpid): string {
    PrintType(u.ty) + ":" + u.remote + "!" + u.upid
  }

  /** Every parsed value has a safe remote. */
  lemma ParsedIsSafe(s: string, pve: string -> bool, pbs: string -> bool)
    requires Parse(s, pve, pbs).Ok?
    ensures SafeId(Parse(s, pve, pbs).value.remote)
  {}

  /** Parsing what was printed gives the same value back exactly when the remote id is safe, whatever
      its UPID holds; the constructor `new` accepts unsafe ones. */
  lemma PrintParse(u: RemoteUpid, pve: string -> bool, pbs: string -> bool)
    ensures Parse(Print(u), pve, pbs) == Ok(u) <==> SafeId(u.remote)
  {
    if SafeId(u.remote) {
      PrintSplits(u);
      TypeReadBack(u);
    } else if Parse(Print(u), pve, pbs) == Ok(u) {
      ParsedIsSafe(Print(u), pve, pbs);
    }
  }

  lemma TypeReadBack(u: RemoteUpid)
    requires SafeId(u.remote)
    ensures FromTriple(PrintType(u.ty), u.remote, u.upid) == Ok(u)
  {}

  lemma PrintSplits(u: RemoteUpid)
    requires SafeId(u.remote)
    ensures var head := PrintType(u.ty) + ":" + u.remote;
      && SplitOnce(Print(u), '!') == Some((head, u.upid))
      && SplitOnce(head, ':') == Some((PrintType(u.ty), u.remote))
  {
    var head := PrintType(u.ty) + ":" + u.remote;
    assert Print(u) == head + "!" + u.upid;
    SplitOnceAt(head, '!', u.upid);
    SplitOnceAt(PrintType(u.ty), ':', u.remote);
  }

  /** The printed form: type, colon, remote, exclamation mark, task id. */
  lemma PrintForm(remote: string, upid: string)
    ensures Print(RemoteUpid(remote, Pve, upid)) == "pve:" + remote + "!" + upid
    ensures Print(RemoteUpid(remote, Pbs, upid)) == "pbs:" + remote + "!" + upid
  {}

  /** A text is accepted as a value exactly if the remote id is safe and the text is the value printed, or the remote
      and the UPID alone and the type is the one whose form the UPID has, PVE first. */
  lemma ParseExactly(s: string, u: RemoteUpid, pve: string -> bool, pbs: string -> bool)
    ensures Parse(s, pve, pbs) == Ok(u)
            <==> SafeId(u.remote)
                 && (s == Print(u)
                     || (s == u.remote + "!" + u.upid
                         && (if pve(u.upid) then u.ty == Pve else pbs(u.upid) && u.ty == Pbs)))
  {
    if SafeId(u.remote) {
      PrintParse(u, pve, pbs);
      LegacyForm(u.remote, u.upid, pve, pbs);
    }
    if Parse(s, pve, pbs) == Ok(u) {
      ParsedIsSafe(s, pve, pbs);
      var (head, upid) := SplitOnce(s, '!').value;
      if SplitOnce(head, ':').Some? {
        var (ty, remote) := SplitOnce(head, ':').value;
        assert ty == PrintType(u.ty);
        assert s == (ty + [':'] + remote) + ['!'] + upid;
      }
    }
  }

  /** Which error a text that is not accepted gets. */
  lemma ParseErrors(s: string, pve: string -> bool, pbs: string -> bool)
    requires Parse(s, pve, pbs).Err?
    ensures Parse(s, pve, pbs).error == MissingSeparator <==> '!' !in s
    ensures Parse(s, pve, pbs).error in {MissingSeparator, BadRemote, BadType, BadUpid}
  {}

  /** Two values with safe remotes that print alike are equal. */
  lemma PrintInjective(a: RemoteUpid, b: RemoteUpid)
    requires SafeId(a.remote) && SafeId(b.remote) && Print(a) == Print(b)
    ensures a == b
  {
    PrintParse(a, _ => false, _ => false);
    PrintParse(b, _ => false, _ => false);
  }

  /** Whatever a text in either form parses to is stable from then on. */
  lemma ParsePrintStable(s: string, pve: string -> bool, pbs: string -> bool)
    requires Parse(s, pve, pbs).Ok?
    ensures Parse(Print(Parse(s, pve, pbs).value), pve, pbs) == Parse(s, pve, pbs)
  {
    ParsedIsSafe(s, pve, pbs);
    PrintParse(Parse(s, pve, pbs).value, pve, pbs);
  }

  /** The text of the form without a type that stands for a value prints back with its type. */
  lemma LegacyForm(remote: string, upid: string, pve: string -> bool, pbs: string -> bool)
    requires SafeId(remote)
    ensures Parse(remote + "!" + upid, pve, pbs) == FromPair(remote, upid, pve, pbs)
  {
    SplitOnceAt(remote, '!', upid);
  }

  function ParseForRemote(remote: Option<string>, upid: string, pve: string -> bool, pbs: string -> bool)
    : Result<RemoteUpid, Error>
  {
    if '!' in upid then
      match Parse(upid, pve, pbs)
      case Err(error) => Err(error)
      case Ok(parsed) => if remote.Some? && parsed.remote != remote.value then Err(RemoteMismatch) else Ok(parsed)
    else
      match remote
      case Some(name) => Parse(name + "!" + upid, pve, pbs)
      case None => Err(NoRemote)
  }

  /** A valid raw task id for a given remote is accepted with that very remote and id, and with the type whose
      form it has, exactly when the remote id is safe. */
  lemma RawUpidKeepsRemote(remote: string, upid: string, pve: string -> bool, pbs: string -> bool)
    requires '!' !in upid && (pve(upid) || pbs(upid))
    ensures ParseForRemote(Some(remote), upid, pve, pbs)
            == Ok(RemoteUpid(remote, if pve(upid) then Pve else Pbs, upid))
            <==> SafeId(remote)
  {
    if SafeId(remote) {
      LegacyForm(remote, upid, pve, pbs);
    } else if ParseForRemote(Some(remote), upid, pve, pbs).Ok? {
      ParsedIsSafe(remote + "!" + upid, pve, pbs);
    }
  }

  /** What is asked for a remote: a text with '!' is a value of its own that has to be of the given remote, if one is
      given; any other text needs a remote. */
  lemma ForRemoteExactly(remote: Option<string>, text: string, pve: string -> bool, pbs: string -> bool)
    ensures var r := ParseForRemote(remote, text, pve, pbs);
      && ('!' in text ==>
            && (forall u :: r == Ok(u)
                            <==> Parse(text, pve, pbs) == Ok(u) && (remote == None || remote == Some(u.remote)))
            && (r == Err(RemoteMismatch)
                <==> Parse(text, pve, pbs).Ok? && remote.Some? && remote.value != Parse(text, pve, pbs).value.remote))
      && ('!' !in text ==>
            && (remote == None ==> r == Err(NoRemote))
            && (remote.Some? ==> r == Parse(remote.value + "!" + text, pve, pbs)))
  {
    if '!' in text && Parse(text, pve, pbs).Err? { ParseErrors(text, pve, pbs); }
  }

  /** A remote given together with a type is read as that type and the other remote. */
  lemma ColonInRemoteChangesIt(ty: RemoteType, other: string, upid: string, pve: string -> bool, pbs: string -> bool)
    requires '!' !in upid && SafeId(other)
    ensures ParseForRemote(Some(PrintType(ty) + ":" + other), upid, pve, pbs) == Ok(RemoteUpid(other, ty, upid))
  {
    PrintParse(RemoteUpid(other, ty, upid), pve, pbs);
  }
}
