/** The policy daemon's whole state as a value, and what each command does to it. */
module Policy {
  import opened Text
  import opened Records
  import opened PolicyStore

  const FIRST_PENDING_ID: nat := 1

  datatype Pending = Pending(
    secret: string,
    process: Option<string>,
    pid: nat,
    hash: Option<string>,
    hashError: Option<string>,
    reason: string,
    expires: nat,
    granted: bool)

  datatype State = State(
    secrets: map<string, Rec>,
    pending: map<nat, Pending>,
    nextId: nat,
    timeout: nat,
    lockdown: bool,
    salt: seq<Byte>)

  /** Whether a file holds exactly what `s` keeps across a restart. */
  predicate Stores(file: PolicyFile, s: State) {
    && file.lockdown == s.lockdown
    && file.salt == BytesToHex(s.salt)
    && Contents(file.secrets) == ProjectAll(s.secrets)
  }

  // ── reads ──────────────────────────────────────────────────────

  function Mint(s: State, now: nat, p: Pending): State {
    s.(pending := s.pending[s.nextId := p.(expires := now + s.timeout, granted := false)], nextId := s.nextId + 1)
  }

  /** Every pending's id has been counted, so the next one is new. */
  predicate Issued(s: State) {
    forall id :: id in s.pending ==> FIRST_PENDING_ID <= id < s.nextId
  }

  /** A new pending's id is no pending's, and the next one will not be either. */
  lemma MintIsFresh(s: State, now: nat, p: Pending)
    requires Issued(s) && FIRST_PENDING_ID <= s.nextId
    ensures s.nextId !in s.pending && s.nextId in Mint(s, now, p).pending && Issued(Mint(s, now, p))
    ensures Mint(s, now, p).nextId !in Mint(s, now, p).pending
  {
  }

  /** Reads keep ids counted and never take the counter back. */
  lemma AttemptKeepsIds(
    s: State, now: nat, name: string, pid: nat, observed: Option<string>, offset: Usize, size: Usize)
    requires Issued(s) && FIRST_PENDING_ID <= s.nextId
    ensures Issued(Attempt(s, now, name, pid, observed, offset, size))
    ensures s.nextId <= Attempt(s, now, name, pid, observed, offset, size).nextId
  {
    MintIsFresh(s, now, Pending(name, None, pid, observed, None, REASON_LOCKDOWN, 0, false));
  }

  function AttemptOutcome(s: State, name: string, pid: nat, observed: Option<string>, offset: Usize): Outcome {
    if name in s.secrets then Decide(s.secrets[name], pid, observed, offset, s.lockdown) else NotFound
  }

  /** A lockdown denial leaves a pending carrying the observed hash; every other denial leaves nothing. */
  function Attempt(
    s: State, now: nat, name: string, pid: nat, observed: Option<string>, offset: Usize, size: Usize): State
  {
    match AttemptOutcome(s, name, pid, observed, offset)
    case Granted =>
      s.(secrets := s.secrets[name := AfterAttempt(s.secrets[name], pid, observed, offset, size, s.lockdown)])
    case DeniedLocked =>
      Mint(s, now, Pending(name, None, pid, observed, None, REASON_LOCKDOWN, 0, false))
    case _ => s
  }

  function Manually(s: State, name: string, pid: nat, offset: Usize, size: Usize): State {
    if name in s.secrets then s.(secrets := s.secrets[name := AfterManual(s.secrets[name], pid, offset, size)]) else s
  }

  // ── registration and policy commands ───────────────────────────

  function Add(s: State, name: string, host: string, size: Usize, hash: string, mode: nat): State {
    s.(secrets := s.secrets[name :=
      if name in s.secrets then ReAdded(s.secrets[name], host, size, hash, mode) else Created(host, size, hash, mode)])
  }

  function Remove(s: State, name: string): State {
    s.(secrets := s.secrets - {name})
  }

  function ResetOne(s: State, name: string): State {
    if name in s.secrets then s.(secrets := s.secrets[name := Reset(s.secrets[name])]) else s
  }

  function ResetAll(s: State): State {
    s.(secrets := map name | name in s.secrets :: Reset(s.secrets[name]))
  }

  function Rotate(s: State, name: string, hash: string): State {
    if name in s.secrets then s.(secrets := s.secrets[name := Rotated(s.secrets[name], hash)]) else s
  }

  function Observe(s: State, name: string, size: Usize): State {
    if name in s.secrets then s.(secrets := s.secrets[name := s.secrets[name].(size := size)]) else s
  }

  // ── pendings ───────────────────────────────────────────────────

  predicate Grantable(s: State, id: nat, now: nat) {
    id in s.pending && s.pending[id].expires > now
  }

  function Grant(s: State, id: nat, now: nat): State {
    if Grantable(s, id, now) then s.(pending := s.pending[id := s.pending[id].(granted := true)]) else s
  }

  function Deny(s: State, id: nat): State {
    s.(pending := s.pending - {id})
  }

  predicate IsGranted(s: State, id: nat, now: nat) {
    id in s.pending && s.pending[id].granted && s.pending[id].expires > now
  }

  predicate IsDenied(s: State, id: nat, now: nat) {
    id in s.pending ==> s.pending[id].expires <= now
  }

  /** An expired ask is kept only while it carries a hash to learn from. */
  function Cleanup(s: State, now: nat): State {
    s.(pending :=
      map id | id in s.pending && (s.pending[id].expires > now || s.pending[id].hash.Some?) :: s.pending[id])
  }

  function RefreshHash(s: State, id: nat, hash: Option<string>, hashError: Option<string>): State {
    if id in s.pending then s.(pending := s.pending[id := s.pending[id].(hash := hash, hashError := hashError)]) else s
  }

  datatype ForeverError =
    | NoSuchPending
    | PendingExpired
    | NothingToWhitelist(why: Option<string>)
    | SecretGone
    | PendingVanished

  datatype ForeverResult = Whitelisting | Refused(error: ForeverError)

  /** What grant-forever decides before it touches the record. */
  function ForeverDecision(s: State, id: nat, now: nat): ForeverResult {
    if id !in s.pending then Refused(NoSuchPending)
    else
      var p := s.pending[id];
      if p.expires <= now && p.hash.None? then Refused(PendingExpired)
      else if p.hash.None? then Refused(NothingToWhitelist(p.hashError))
      else if p.secret !in s.secrets then Refused(SecretGone)
      else Whitelisting
  }

  /** The record change grant-forever makes, once decided. */
  function Whitelist(s: State, id: nat): State
    requires id in s.pending && s.pending[id].hash.Some? && s.pending[id].secret in s.secrets
  {
    var p := s.pending[id];
    s.(secrets := s.secrets[p.secret := Whitelisted(s.secrets[p.secret], p.hash.value, p.process)])
  }

  /**
   * Grant-forever as a whole, the clock read at `t0`, `t1` and `t2`. When the pending expires between the
   * last two readings, the record has been changed and yet the command reports failure.
   */
  function ForeverOutcome(s: State, id: nat, t0: nat, t1: nat, t2: nat): ForeverResult {
    var decision := ForeverDecision(s, id, t0);
    if decision.Refused? then decision
    else if t1 < s.pending[id].expires <= t2 then Refused(PendingVanished)
    else Whitelisting
  }

  function Forever(s: State, id: nat, t0: nat, t1: nat, t2: nat): State {
    if ForeverDecision(s, id, t0).Refused? then s
    else if ForeverOutcome(s, id, t0, t1, t2).Refused? then Whitelist(s, id)
    else Grant(Whitelist(s, id), id, t2)
  }

  // ── restart ────────────────────────────────────────────────────

  /** A stored salt is adopted when any of it decodes; otherwise the freshly generated one stays. */
  function LoadedSalt(file: PolicyFile, generated: seq<Byte>): seq<Byte> {
    var stored := HexToBytes(file.salt);
    if stored != [] then stored else generated
  }

  /** The state a new process loads from a parsed file. Pendings and their counter start over. */
  function Loaded(file: PolicyFile, sizes: HostSizes, generated: seq<Byte>, timeout: nat): State {
    State(
      ReviveAll(Contents(file.secrets), sizes),
      map[],
      FIRST_PENDING_ID,
      timeout,
      file.lockdown,
      LoadedSalt(file, generated))
  }

  /** Storing a state and loading it back keeps its whole persisted part and clears every stream. */
  lemma StoreLoadRoundTrip(s: State, file: PolicyFile, sizes: HostSizes, generated: seq<Byte>)
    requires Stores(file, s) && s.salt != []
    ensures
      Loaded(file, sizes, generated, s.timeout) ==
      State(Restarted(s.secrets, sizes), map[], FIRST_PENDING_ID, s.timeout, s.lockdown, s.salt)
    ensures Sliceable(file.salt) && Stores(file, Loaded(file, sizes, generated, s.timeout))
  {
    HexDecodesEncoding(s.salt);
    EncodingIsLowerHex(s.salt);
    LowerHexSlices(file.salt);
    ReviveProjectAll(s.secrets, sizes);
  }

  /** What loading leaves on disk: without a usable salt it first writes out the still empty state. */
  function DiskAfterLoad(file: PolicyFile, generated: seq<Byte>): PolicyFile {
    if HexToBytes(file.salt) != [] then file else PolicyFile(false, BytesToHex(generated), [])
  }

  /** Loading a file with a usable salt leaves disk and memory agreeing on everything but the salt's spelling. */
  lemma LoadKeepsStore(file: PolicyFile, sizes: HostSizes, generated: seq<Byte>, timeout: nat)
    requires generated != []
    ensures
      var loaded := Loaded(file, sizes, generated, timeout);
      Stores(DiskAfterLoad(file, generated), loaded) <==>
        if HexToBytes(file.salt) != [] then IsLowerHex(file.salt)
        else Contents(file.secrets) == map[] && !file.lockdown
  {
    var loaded := Loaded(file, sizes, generated, timeout);
    var stored := Contents(file.secrets);
    assert ProjectAll(ReviveAll(stored, sizes)) == stored;
    HexEncodesDecoding(file.salt);
    if stored != map[] {
      var name :| name in stored;
      assert name in ProjectAll(loaded.secrets);
    }
  }

  /** A store written without a salt is emptied by the load that reads it: a second restart finds no secret at all. */
  lemma SaltlessStoreIsLost(file: PolicyFile, sizes: HostSizes, generated: seq<Byte>, timeout: nat)
    requires HexToBytes(file.salt) == [] && generated != []
    ensures Loaded(file, sizes, generated, timeout).secrets.Keys == Contents(file.secrets).Keys
    ensures Loaded(DiskAfterLoad(file, generated), sizes, generated, timeout).secrets == map[]
  {
  }

  // ── the probe for the denial text, on the whole state ──────────

  /**
   * After a denial that leads to a pending, the second attempt that fetches its text is denied again,
   * has a text, and leaves records, pendings and the id counter as they were.
   */
  lemma ProbeChangesNothing(
    s: State, now: nat, name: string, pid: nat, observed: Option<string>, offset: Usize, size: Usize)
    requires
      var first := AttemptOutcome(s, name, pid, observed, offset);
      first.AlreadyAccessed? || first.HashMismatch?
    ensures Attempt(s, now, name, pid, observed, offset, size) == s
    ensures Attempt(s, now, name, pid, None, offset, size) == s
    ensures
      var again := AttemptOutcome(s, name, pid, None, offset);
      (again.AlreadyAccessed? || again.HashMismatch?) && again.Reason().Some?
  {
    ProbeRepeatsDenial(s.secrets[name], pid, observed, offset, size, s.lockdown);
  }
}
