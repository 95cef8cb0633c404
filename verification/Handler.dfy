/** The operator's commands and the startup load, acting on the policy state and the hub together. */
module Handler {
  import opened Text
  import opened Records
  import opened PolicyStore
  import opened Policy
  import opened Hub
  import opened Server

  /** The container-view name of a secret: a salted hash, whose only property used here is being a function. */
  type Anonymizer = (seq<Byte>, string) -> string

  /** The served secrets as the hub should tell them: anonymised name and recorded mode. */
  function Serving(s: State, anonymize: Anonymizer): map<string, Entry> {
    map name | name in s.secrets :: Entry(anonymize(s.salt, name), s.secrets[name].mode)
  }

  predicate Mirrors(log: seq<Command>, s: State, anonymize: Anonymizer) {
    Folded(log) == Serving(s, anonymize)
  }

  /** The host's answer when a path is resolved and inspected. */
  datatype HostFile = Unresolved | Irregular(host: string) | Regular(host: string, size: Usize)

  datatype Request =
    | AddSecret(name: string, hash: string, mode: nat, file: HostFile)
    | RemoveSecret(name: string)
    | ResetSecret(only: Option<string>)
    | RotateHash(name: string, hash: string)
    | LockDown(off: bool)
    | GrantOnce(id: nat)
    | GrantForever(id: nat, lookup: (Option<string>, Option<string>))
    | DenyRequest(id: nat)
    | ListPending

  datatype Response = Done | Added(inner: string) | Failed

  // ── what each request does ─────────────────────────────────────

  /** A pending that lacks a hash gets the late lookup's result before grant-forever looks at it. */
  function LookedUp(s: State, id: nat, lookup: (Option<string>, Option<string>), now: nat): State {
    if id in s.pending && s.pending[id].hash.None? && s.pending[id].expires > now
    then RefreshHash(s, id, lookup.0, lookup.1)
    else s
  }

  function Handled(s: State, r: Request, t0: nat, t1: nat, t2: nat): State {
    match r
    case AddSecret(name, hash, mode, file) =>
      if file.Regular? then Add(s, name, file.host, file.size, hash, PlainMode(mode)) else s
    case RemoveSecret(name) => Policy.Remove(s, name)
    case ResetSecret(only) => if only.Some? then ResetOne(s, only.value) else Policy.ResetAll(s)
    case RotateHash(name, hash) => Policy.Rotate(s, name, hash)
    case LockDown(off) => s.(lockdown := !off)
    case GrantOnce(id) => Grant(s, id, t0)
    case GrantForever(id, lookup) => Forever(LookedUp(s, id, lookup, t0), id, t0, t1, t2)
    case DenyRequest(id) => Deny(s, id)
    case ListPending => Cleanup(s, t0)
  }

  function Answer(s: State, r: Request, anonymize: Anonymizer, t0: nat, t1: nat, t2: nat): Response {
    match r
    case AddSecret(name, _, _, file) => if file.Regular? then Added(anonymize(s.salt, name)) else Failed
    case RemoveSecret(name) => if name in s.secrets then Done else Failed
    case ResetSecret(only) => if only.Some? && only.value !in s.secrets then Failed else Done
    case RotateHash(name, _) => if name in s.secrets then Done else Failed
    case LockDown(_) => Done
    case GrantOnce(id) => if Grantable(s, id, t0) then Done else Failed
    case GrantForever(id, lookup) =>
      if ForeverOutcome(LookedUp(s, id, lookup, t0), id, t0, t1, t2).Whitelisting? then Done else Failed
    case DenyRequest(id) => if id in s.pending then Done else Failed
    case ListPending => Done
  }

  /** What the hub is told. */
  function Said(s: State, r: Request, anonymize: Anonymizer): seq<Command> {
    if r.AddSecret? && r.file.Regular? then [Command.Serve(r.name, anonymize(s.salt, r.name), PlainMode(r.mode))]
    else if r.RemoveSecret? && r.name in s.secrets then [Withdraw(r.name)]
    else []
  }

  /** Names, modes and salt are all that is served; whatever leaves them alone leaves the mirror intact. */
  predicate SameServing(s: State, t: State) {
    && s.salt == t.salt
    && s.secrets.Keys == t.secrets.Keys
    && forall name :: name in s.secrets ==> s.secrets[name].mode == t.secrets[name].mode
  }

  /** No command mints a pending or takes the id counter back: an id stands for one ask for the life of the process. */
  lemma HandledKeepsIds(s: State, r: Request, t0: nat, t1: nat, t2: nat)
    requires Issued(s)
    ensures Issued(Handled(s, r, t0, t1, t2)) && Handled(s, r, t0, t1, t2).nextId == s.nextId
    ensures Handled(s, r, t0, t1, t2).pending.Keys <= s.pending.Keys
  {
  }

  lemma ForeverKeepsServing(s: State, id: nat, t0: nat, t1: nat, t2: nat)
    ensures SameServing(s, Forever(s, id, t0, t1, t2))
  {
  }

  lemma QuietCommandsKeepServing(s: State, r: Request, anonymize: Anonymizer, t0: nat, t1: nat, t2: nat)
    requires Said(s, r, anonymize) == []
    ensures SameServing(s, Handled(s, r, t0, t1, t2))
  {
    if r.GrantForever? {
      var looked := LookedUp(s, r.id, r.lookup, t0);
      assert SameServing(s, looked);
      ForeverKeepsServing(looked, r.id, t0, t1, t2);
    } else if r.RemoveSecret? {
      assert Policy.Remove(s, r.name).secrets == s.secrets;
    }
  }

  lemma AddServes(s: State, r: Request, anonymize: Anonymizer)
    requires r.AddSecret? && r.file.Regular?
    ensures Serving(Handled(s, r, 0, 0, 0), anonymize) == Told(Serving(s, anonymize), Said(s, r, anonymize)[0])
  {
    assert PlainMode(PlainMode(r.mode)) == PlainMode(r.mode);
    assert Handled(s, r, 0, 0, 0).secrets[r.name].mode == PlainMode(r.mode);
  }

  /** A command says nothing and leaves what is served, or says one thing and changes what is served accordingly. */
  lemma HandledServes(s: State, r: Request, anonymize: Anonymizer, t0: nat, t1: nat, t2: nat)
    ensures
      var said, before := Said(s, r, anonymize), Serving(s, anonymize);
      && |said| <= 1
      && Serving(Handled(s, r, t0, t1, t2), anonymize) == if said == [] then before else Told(before, said[0])
  {
    if Said(s, r, anonymize) == [] {
      QuietCommandsKeepServing(s, r, anonymize, t0, t1, t2);
    } else if r.AddSecret? {
      AddServes(s, r, anonymize);
    }
  }

  /**
   * After every command the hub's log still folds to exactly the served secrets, each under its
   * anonymised name and with the mode in its record.
   */
  lemma CommandMirrored(log: seq<Command>, s: State, r: Request, anonymize: Anonymizer, t0: nat, t1: nat, t2: nat)
    requires Mirrors(log, s, anonymize)
    ensures Mirrors(log + Said(s, r, anonymize), Handled(s, r, t0, t1, t2), anonymize)
  {
    var said := Said(s, r, anonymize);
    HandledServes(s, r, anonymize, t0, t1, t2);
    if said == [] {
      assert log + said == log;
    } else {
      assert said == [said[0]];
      FoldedAppend(map[], log, said[0]);
    }
  }

  // ── the handler ────────────────────────────────────────────────

  /** Register by inspection: the policy daemon records the host path and announces the name. */
  method RegisterSecret(
      state: ServerState, hub: OracleHub, anonymize: Anonymizer, name: string, file: HostFile, hash: string,
      mode: nat, broken: set<nat>)
    returns (inner: Option<string>)
    requires state.Valid()
    modifies state, state.secrets.Values, hub
    ensures state.Valid()
    ensures inner == if file.Regular? then Some(anonymize(old(state.salt), name)) else None
    ensures file.Regular? ==>
      && state.View() == Add(old(state.View()), name, file.host, file.size, hash, PlainMode(mode))
      && state.Durable()
      && hub.snapshot == old(hub.snapshot) + [Command.Serve(name, anonymize(old(state.salt), name), PlainMode(mode))]
    ensures !file.Regular? ==> state.View() == old(state.View()) && hub.snapshot == old(hub.snapshot)
    ensures old(hub.Caught()) ==> hub.Caught()
  {
    if !file.Regular? {
      return None;
    }
    state.AddWithMode(name, file.host, file.size, hash, PlainMode(mode));
    var tag := anonymize(state.salt, name);
    hub.Broadcast(Command.Serve(name, tag, PlainMode(mode)), broken);
    return Some(tag);
  }

  /** Only a secret that was there is withdrawn. */
  method WithdrawSecret(state: ServerState, hub: OracleHub, name: string, broken: set<nat>) returns (response: Response)
    requires state.Valid()
    modifies state, hub
    ensures state.Valid()
    ensures response == if name in old(state.secrets) then Done else Failed
    ensures state.View() == Policy.Remove(old(state.View()), name)
    ensures hub.snapshot ==
      if name in old(state.secrets) then old(hub.snapshot) + [Withdraw(name)] else old(hub.snapshot)
    ensures old(hub.Caught()) ==> hub.Caught()
  {
    var existed := state.RemoveSecret(name);
    if existed {
      hub.Broadcast(Withdraw(name), broken);
    }
    return if existed then Done else Failed;
  }

  /** Commands on policy records. */
  method HandlePolicy(r: Request, state: ServerState, ghost anonymize: Anonymizer) returns (response: Response)
    requires state.Valid()
    requires r.ResetSecret? || r.RotateHash? || r.LockDown?
    modifies state`disk, state`lockdown, state.secrets.Values
    ensures state.Valid()
    ensures state.View() == Handled(old(state.View()), r, 0, 0, 0)
    ensures response == Answer(old(state.View()), r, anonymize, 0, 0, 0)
  {
    match r
    case ResetSecret(only) =>
      var cleared := state.ResetBookkeeping(only);
      return if only.Some? && cleared == 0 then Failed else Done;
    case RotateHash(name, hash) =>
      var rotated := state.RotateHash(name, hash);
      return if rotated then Done else Failed;
    case LockDown(off) =>
      state.SetLockdown(!off);
      return Done;
  }

  /** A late lookup first, then grant-forever. */
  method HandleForever(id: nat, lookup: (Option<string>, Option<string>), state: ServerState, t0: nat, t1: nat, t2: nat)
    returns (response: Response)
    requires state.Valid() && t0 <= t1 <= t2
    modifies state`disk, state`pending, state.secrets.Values
    ensures state.Valid()
    ensures
      var looked := LookedUp(old(state.View()), id, lookup, t0);
      && state.View() == Forever(looked, id, t0, t1, t2)
      && (response == if ForeverOutcome(looked, id, t0, t1, t2).Whitelisting? then Done else Failed)
      && (response.Done? ==> state.Durable())
  {
    var pid := state.PendingPidNeedingHash(t0, id);
    if pid.Some? {
      state.RefreshPendingHash(id, lookup.0, lookup.1);
    }
    var result := state.GrantPendingForever(id, t0, t1, t2);
    return if result.Whitelisting? then Done else Failed;
  }

  method HandleCommand(r: Request, state: ServerState, hub: OracleHub, anonymize: Anonymizer, broken: set<nat>,
      t0: nat, t1: nat, t2: nat)
    returns (response: Response)
    requires state.Valid() && t0 <= t1 <= t2
    modifies state, state.secrets.Values, hub
    ensures state.Valid()
    ensures state.View() == Handled(old(state.View()), r, t0, t1, t2)
    ensures response == Answer(old(state.View()), r, anonymize, t0, t1, t2)
    ensures hub.snapshot == old(hub.snapshot) + Said(old(state.View()), r, anonymize)
    ensures old(hub.Caught()) ==> hub.Caught()
  {
    if r.AddSecret? {
      var inner := RegisterSecret(state, hub, anonymize, r.name, r.file, r.hash, r.mode, broken);
      response := if inner.Some? then Added(inner.value) else Failed;
    } else if r.RemoveSecret? {
      response := WithdrawSecret(state, hub, r.name, broken);
    } else if r.GrantForever? {
      response := HandleForever(r.id, r.lookup, state, t0, t1, t2);
    } else if r.GrantOnce? {
      var granted := state.GrantPending(t0, r.id);
      response := if granted then Done else Failed;
    } else if r.DenyRequest? {
      var denied := state.DenyPending(r.id);
      response := if denied then Done else Failed;
    } else if r.ListPending? {
      state.CleanupExpired(t0);
      response := Done;
    } else {
      response := HandlePolicy(r, state, anonymize);
    }
  }

  // ── startup ────────────────────────────────────────────────────

  /** What reading the store file gave. */
  datatype StoreRead = Missing | Unreadable | Unparsable | Parsed(file: PolicyFile)

  function Announcements(entries: seq<StoredSecret>, salt: seq<Byte>, anonymize: Anonymizer): seq<Command> {
    if entries == [] then []
    else
      var last := entries[|entries| - 1];
      Announcements(entries[..|entries| - 1], salt, anonymize) +
      [Command.Serve(last.name, anonymize(salt, last.name), last.stored.mode)]
  }

  /** Announcing a file's entries in order folds to its contents: duplicates agree on the last one. */
  lemma {:induction false} AnnouncementsFold(entries: seq<StoredSecret>, salt: seq<Byte>, anonymize: Anonymizer)
    ensures Folded(Announcements(entries, salt, anonymize)) ==
      map name | name in Contents(entries) :: Entry(anonymize(salt, name), Contents(entries)[name].mode)
  {
    if entries != [] {
      var front, last := entries[..|entries| - 1], entries[|entries| - 1];
      AnnouncementsFold(front, salt, anonymize);
      FoldedAppend(map[], Announcements(front, salt, anonymize),
        Command.Serve(last.name, anonymize(salt, last.name), last.stored.mode));
    }
  }

  /** Whether the process gets past reading its salt. */
  predicate Comes(read: StoreRead) {
    read.Parsed? ==> Sliceable(read.file.salt)
  }

  /**
   * Load the store into a newborn state and announce it to a newborn hub. Whatever was read, the hub's
   * log then folds to exactly what is served. The disk is what `DiskAfterLoad` says, and an unreadable
   * store disarms persistence instead of being overwritten. A salt that cannot be taken apart ends the
   * process before it has changed anything.
   */
  method Load(state: ServerState, hub: OracleHub, read: StoreRead, sizes: HostSizes, anonymize: Anonymizer)
    returns (up: bool)
    requires state.Valid() && state.secrets == map[] && state.pending == map[] && state.nextId == FIRST_PENDING_ID
    requires !state.lockdown && state.armed
    requires read.Parsed? ==> state.disk == Some(read.file)
    requires hub.snapshot == []
    modifies state, hub
    ensures up == Comes(read)
    ensures !up ==> state.View() == old(state.View()) && state.disk == old(state.disk) && hub.snapshot == []
    ensures state.Valid() && fresh(state.secrets.Values)
    ensures up && read.Parsed? ==>
      && state.View() == Loaded(read.file, sizes, old(state.salt), old(state.timeout))
      && state.armed
      && (HexToBytes(read.file.salt) != [] ==> state.disk == Some(read.file))
      && (HexToBytes(read.file.salt) == [] ==>
          state.disk.Some? && Contents(state.disk.value.secrets) == map[] &&
          !state.disk.value.lockdown && state.disk.value.salt == BytesToHex(old(state.salt)))
    ensures !read.Parsed? ==> state.View() == old(state.View())
    ensures read.Missing? || read.Unparsable? ==> state.armed && state.Durable()
    ensures read.Unreadable? ==> !state.armed && state.disk == old(state.disk)
    ensures up ==> Mirrors(hub.snapshot, state.View(), anonymize)
  {
    if read.Missing? || read.Unparsable? {
      state.PersistLocked();
      return true;
    }
    if read.Unreadable? {
      state.armed := false;
      return true;
    }
    if !Sliceable(read.file.salt) {
      return false;
    }
    LoadFile(state, hub, read.file, sizes, anonymize);
    return true;
  }

  method LoadFile(state: ServerState, hub: OracleHub, file: PolicyFile, sizes: HostSizes, anonymize: Anonymizer)
    requires state.Valid() && state.secrets == map[] && state.pending == map[] && state.nextId == FIRST_PENDING_ID
    requires !state.lockdown && state.armed && state.disk == Some(file)
    requires hub.snapshot == [] && Sliceable(file.salt)
    modifies state, hub
    ensures state.Valid() && fresh(state.secrets.Values) && state.armed
    ensures state.View() == Loaded(file, sizes, old(state.salt), old(state.timeout))
    ensures HexToBytes(file.salt) != [] ==> state.disk == Some(file)
    ensures HexToBytes(file.salt) == [] ==>
      state.disk.Some? && Contents(state.disk.value.secrets) == map[] &&
      !state.disk.value.lockdown && state.disk.value.salt == BytesToHex(old(state.salt))
    ensures Mirrors(hub.snapshot, state.View(), anonymize)
  {
    AdoptSettings(state, file);
    LoadEntries(state, hub, file.secrets, sizes, anonymize);
    LoadedMirrors(hub.snapshot, state.View(), file.secrets, sizes, anonymize);
  }

  /** Take the stored salt and lockdown. Without a usable salt the generated one is written out first. */
  method AdoptSettings(state: ServerState, file: PolicyFile)
    requires state.secrets == map[] && !state.lockdown && state.armed && state.disk == Some(file)
    modifies state`salt, state`lockdown, state`disk
    ensures state.salt == LoadedSalt(file, old(state.salt)) && state.lockdown == file.lockdown
    ensures HexToBytes(file.salt) != [] ==> state.disk == Some(file)
    ensures HexToBytes(file.salt) == [] ==>
      state.disk.Some? && Contents(state.disk.value.secrets) == map[] &&
      !state.disk.value.lockdown && state.disk.value.salt == BytesToHex(old(state.salt))
  {
    var stored := HexToBytes(file.salt);
    if stored != [] {
      state.salt := stored;
    } else {
      state.PersistLocked();
    }
    if file.lockdown {
      state.lockdown := true;
    }
  }

  lemma LoadedMirrors(log: seq<Command>, s: State, entries: seq<StoredSecret>, sizes: HostSizes, anonymize: Anonymizer)
    requires s.secrets == ReviveAll(Contents(entries), sizes) && log == Announcements(entries, s.salt, anonymize)
    ensures Mirrors(log, s, anonymize)
  {
    AnnouncementsFold(entries, s.salt, anonymize);
  }

  lemma EntryAdded(entries: seq<StoredSecret>, i: nat, sizes: HostSizes, salt: seq<Byte>, anonymize: Anonymizer)
    requires i < |entries|
    ensures
      var e := entries[i];
      && ReviveAll(Contents(entries[..i + 1]), sizes) ==
         ReviveAll(Contents(entries[..i]), sizes)[e.name := Revive(e.stored, SizeOf(sizes, e.stored.host))]
      && Announcements(entries[..i + 1], salt, anonymize) ==
         Announcements(entries[..i], salt, anonymize) + [Command.Serve(e.name, anonymize(salt, e.name), e.stored.mode)]
  {
    assert entries[..i + 1][..i] == entries[..i];
  }

  method LoadEntries(
      state: ServerState, hub: OracleHub, entries: seq<StoredSecret>, sizes: HostSizes, anonymize: Anonymizer)
    requires state.Valid() && state.secrets == map[] && hub.snapshot == []
    modifies state`secrets, hub
    ensures state.Valid() && fresh(state.secrets.Values)
    ensures state.Records() == ReviveAll(Contents(entries), sizes)
    ensures hub.snapshot == Announcements(entries, state.salt, anonymize)
  {
    ghost var salt := state.salt;
    for i := 0 to |entries|
      invariant state.Valid() && fresh(state.secrets.Values) && state.salt == salt
      invariant state.Records() == ReviveAll(Contents(entries[..i]), sizes)
      invariant hub.snapshot == Announcements(entries[..i], salt, anonymize)
    {
      EntryAdded(entries, i, sizes, salt, anonymize);
      var e := entries[i];
      LoadEntry(state, hub, e, SizeOf(sizes, e.stored.host), anonymize);
    }
    assert entries[..|entries|] == entries;
  }

  method LoadEntry(state: ServerState, hub: OracleHub, e: StoredSecret, size: Usize, anonymize: Anonymizer)
    requires state.Valid()
    modifies state`secrets, hub
    ensures state.Valid() && fresh(state.secrets.Values - old(state.secrets.Values))
    ensures state.Records() == old(state.Records())[e.name := Revive(e.stored, size)]
    ensures hub.snapshot == old(hub.snapshot) + [Command.Serve(e.name, anonymize(state.salt, e.name), e.stored.mode)]
  {
    state.Insert(e.name, Revive(e.stored, size));
    hub.Broadcast(Command.Serve(e.name, anonymize(state.salt, e.name), e.stored.mode), {});
  }
}
