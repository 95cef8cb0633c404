/** The policy daemon's mutable state: records behind references, pendings, and the store they are written to. */
module Server {
  import opened Text
  import opened Records
  import opened PolicyStore
  import opened Policy

  class SecretRecord {
    var host: string
    var size: Usize
    var hashes: seq<Permitted>
    var count: nat
    var reader: Option<nat>
    var progress: Usize
    var mode: nat
    var unlimited: bool

    ghost function Value(): Rec
      reads this
    {
      Rec(host, size, hashes, count, reader, progress, mode, unlimited)
    }

    constructor (rec: Rec)
      ensures Value() == rec
    {
      host, size, hashes, count := rec.host, rec.size, rec.hashes, rec.count;
      reader, progress, mode, unlimited := rec.reader, rec.progress, rec.mode, rec.unlimited;
    }

    /** The part of a read that runs under the record's own lock. */
    method Attempt(pid: nat, observed: Option<string>, offset: Usize, size: Usize, lockdown: bool)
      returns (outcome: Outcome)
      modifies this
      ensures outcome == Decide(old(Value()), pid, observed, offset, lockdown)
      ensures Value() == AfterAttempt(old(Value()), pid, observed, offset, size, lockdown)
    {
      if reader == Some(pid) {
        if offset < progress && !unlimited {
          return AlreadyAccessed;
        }
        var end := Min(SaturatingAdd(offset, size), this.size);
        progress := Max(progress, end);
        return Granted;
      }
      if count > 0 && !unlimited {
        return AlreadyAccessed;
      }
      var hashOk := Admits(hashes, observed);
      if !hashOk && lockdown {
        return DeniedLocked;
      }
      if hashOk {
        count := count + 1;
        reader := Some(pid);
        progress := Min(SaturatingAdd(offset, size), this.size);
        return Granted;
      }
      return HashMismatch(
          if observed.Some? then observed.value else UNKNOWN_HASH,
          Join(Rendered(hashes), HASH_JOIN_SEP));
    }

    method ReadManually(pid: nat, offset: Usize, size: Usize)
      modifies this
      ensures Value() == AfterManual(old(Value()), pid, offset, size)
    {
      count := count + 1;
      reader := Some(pid);
      var end := Min(SaturatingAdd(offset, size), this.size);
      progress := Max(progress, end);
    }

    method ReAdd(host: string, size: Usize, hash: string, mode: nat)
      modifies this
      ensures Value() == ReAdded(old(Value()), host, size, hash, mode)
    {
      if !Lists(hashes, hash) {
        hashes := hashes + [Permitted(hash, None)];
      }
      this.size := size;
      this.mode := PlainMode(mode);
      this.host := host;
    }

    method Clear()
      modifies this
      ensures Value() == Reset(old(Value()))
    {
      count, reader, progress := 0, None, 0;
    }

    /** The permitted hash joins the list or is attributed in place; the read limit is lifted. */
    method Whitelist(hash: string, who: Option<string>)
      modifies this
      ensures Value() == Whitelisted(old(Value()), hash, who)
    {
      var i := 0;
      while i < |hashes| && hashes[i].hash != hash
        invariant 0 <= i <= |hashes|
        invariant forall j :: 0 <= j < i ==> hashes[j].hash != hash
      {
        i := i + 1;
      }
      if i < |hashes| {
        AttributedAt(hashes, hash, who, i);
        if hashes[i].who.None? {
          hashes := hashes[i := Permitted(hash, who)];
        }
      } else {
        hashes := hashes + [Permitted(hash, who)];
      }
      unlimited := true;
    }
  }

  lemma {:induction false} AttributedAt(hashes: seq<Permitted>, hash: string, who: Option<string>, i: nat)
    requires i < |hashes| && hashes[i].hash == hash
    requires forall j :: 0 <= j < i ==> hashes[j].hash != hash
    ensures Attributed(hashes, hash, who) == if hashes[i].who.None? then hashes[i := Permitted(hash, who)] else hashes
  {
    var rest := hashes[1..];
    assert hashes == [hashes[0]] + rest;
    if i > 0 {
      AttributedAt(rest, hash, who, i - 1);
      var named := Permitted(hash, who);
      assert [hashes[0]] + rest[i - 1 := named] == hashes[i := named];
    } else {
      assert hashes[0 := Permitted(hash, who)] == [Permitted(hash, who)] + rest;
    }
  }

  class ServerState {
    var secrets: map<string, SecretRecord>
    var pending: map<nat, Pending>
    var nextId: nat
    var timeout: nat
    var lockdown: bool
    var salt: seq<Byte>
    var armed: bool                // whether a store path is set
    var disk: Option<PolicyFile>   // the file at that path, replaced atomically

    /** No two names share a record. */
    ghost predicate Valid()
      reads this`secrets
    {
      forall a, b :: a in secrets && b in secrets && a != b ==> secrets[a] != secrets[b]
    }

    ghost function Records(): map<string, Rec>
      reads this`secrets, secrets.Values
    {
      map name | name in secrets :: secrets[name].Value()
    }

    ghost function View(): State
      reads this`secrets, this`pending, this`nextId, this`timeout, this`lockdown, this`salt, secrets.Values
    {
      State(Records(), pending, nextId, timeout, lockdown, salt)
    }

    /** Changing one record changes one entry, since no two names share a record. */
    twostate lemma OneRecordChanged(name: string)
      requires Valid() && secrets == old(secrets) && name in secrets
      requires forall n :: n in secrets && n != name ==> unchanged(secrets[n])
      ensures Records() == old(Records())[name := secrets[name].Value()]
    {
    }

    /** Everything the state would want back after a restart is on disk. */
    ghost predicate Durable()
      reads this, secrets.Values
    {
      armed ==> disk.Some? && Stores(disk.value, View())
    }

    constructor (salt: seq<Byte>, timeout: nat, armed: bool, disk: Option<PolicyFile>)
      ensures Valid() && fresh(secrets.Values)
      ensures View() == State(map[], map[], FIRST_PENDING_ID, timeout, false, salt)
      ensures this.armed == armed && this.disk == disk
    {
      secrets, pending, nextId := map[], map[], FIRST_PENDING_ID;
      this.timeout, lockdown, this.salt := timeout, false, salt;
      this.armed, this.disk := armed, disk;
    }

    /** Snapshot every record, in whatever order the map yields them, and replace the file. */
    method PersistLocked()
      modifies this`disk
      ensures Durable()
      ensures !armed ==> disk == old(disk)
    {
      if !armed {
        return;
      }
      var entries: seq<StoredSecret> := [];
      var todo := secrets.Keys;
      while todo != {}
        invariant todo <= secrets.Keys
        invariant Contents(entries) == map name | name in secrets && name !in todo :: Project(secrets[name].Value())
        decreases todo
      {
        var name :| name in todo;
        var rec := secrets[name];
        var entry := StoredSecret(name, Stored(rec.host, rec.mode, rec.hashes, rec.count, rec.unlimited));
        assert (entries + [entry])[..|entries|] == entries;
        entries := entries + [entry];
        todo := todo - {name};
      }
      disk := Some(PolicyFile(lockdown, BytesToHex(salt), entries));
    }

    // ── reads ────────────────────────────────────────────────────

    method CreatePending(now: nat, secret: string, pid: nat, hash: Option<string>, hashError: Option<string>,
        reason: string, process: Option<string>)
      returns (id: nat)
      modifies this`pending, this`nextId
      ensures id == old(nextId)
      ensures View() == Mint(old(View()), now, Pending(secret, process, pid, hash, hashError, reason, 0, false))
      ensures old(Issued(View())) && FIRST_PENDING_ID <= old(nextId) ==> id !in old(pending) && Issued(View())
    {
      id := nextId;
      nextId := nextId + 1;
      pending := pending[id := Pending(secret, process, pid, hash, hashError, reason, now + timeout, false)];
    }

    /** The part of a read that runs under the record's lock. */
    method ReadRecord(name: string, pid: nat, observed: Option<string>, offset: Usize, size: Usize, ghost now: nat)
      returns (outcome: Outcome)
      requires Valid() && name in secrets
      modifies secrets.Values
      ensures outcome == AttemptOutcome(old(View()), name, pid, observed, offset)
      ensures outcome.Granted? ==> View() == Attempt(old(View()), now, name, pid, observed, offset, size)
      ensures !outcome.Granted? ==> View() == old(View())
    {
      outcome := secrets[name].Attempt(pid, observed, offset, size, lockdown);
      OneRecordChanged(name);
    }

    /** A read refused by the lockdown is filed; nothing that is persisted changes. */
    method FileDenied(now: nat, name: string, pid: nat, observed: Option<string>)
      requires Valid()
      modifies this`pending, this`nextId
      ensures View() == Mint(old(View()), now, Pending(name, None, pid, observed, None, REASON_LOCKDOWN, 0, false))
      ensures old(Durable()) ==> Durable()
    {
      var _ := CreatePending(now, name, pid, observed, None, REASON_LOCKDOWN, None);
    }

    /** A grant is on disk before it is answered; a denial leaves the file alone. */
    method AttemptRead(now: nat, name: string, pid: nat, observed: Option<string>, offset: Usize, size: Usize)
      returns (outcome: Outcome)
      requires Valid()
      modifies this`pending, this`nextId, this`disk, secrets.Values
      ensures Valid()
      ensures outcome == AttemptOutcome(old(View()), name, pid, observed, offset)
      ensures View() == Attempt(old(View()), now, name, pid, observed, offset, size)
      ensures outcome.Granted? ==> Durable()
      ensures !outcome.Granted? ==> disk == old(disk)
      ensures old(Durable()) ==> Durable()
    {
      if name !in secrets {
        return NotFound;
      }
      outcome := ReadRecord(name, pid, observed, offset, size, now);
      if outcome.Granted? {
        PersistLocked();
      } else if outcome.DeniedLocked? {
        FileDenied(now, name, pid, observed);
      }
    }

    method GrantedRead(name: string, pid: nat, offset: Usize, size: Usize) returns (served: bool)
      requires Valid()
      modifies this`disk, secrets.Values
      ensures Valid()
      ensures served == (name in secrets)
      ensures View() == Manually(old(View()), name, pid, offset, size)
      ensures served ==> Durable()
      ensures !served ==> disk == old(disk)
      ensures old(Durable()) ==> Durable()
    {
      if name !in secrets {
        return false;
      }
      secrets[name].ReadManually(pid, offset, size);
      OneRecordChanged(name);
      PersistLocked();
      return true;
    }

    method ObserveSize(name: string, size: Usize)
      requires Valid()
      modifies secrets.Values
      ensures Valid()
      ensures View() == Observe(old(View()), name, size)
      ensures old(Durable()) ==> Durable()
    {
      if name in secrets {
        secrets[name].size := size;
        assert ProjectAll(Records()) == old(ProjectAll(Records()));
      }
    }

    // ── registration and policy commands ─────────────────────────

    method ReAddRecord(name: string, host: string, size: Usize, hash: string, mode: nat)
      requires Valid() && name in secrets
      modifies secrets.Values
      ensures Records() == old(Records())[name := ReAdded(old(Records())[name], host, size, hash, mode)]
    {
      secrets[name].ReAdd(host, size, hash, mode);
      OneRecordChanged(name);
    }

    /** The record under a name, new or brought up to date. */
    method Enrol(name: string, host: string, size: Usize, hash: string, mode: nat)
      requires Valid()
      modifies this`secrets, secrets.Values
      ensures Valid() && fresh(secrets.Values - old(secrets.Values))
      ensures View() == Add(old(View()), name, host, size, hash, mode)
    {
      if name in secrets {
        ReAddRecord(name, host, size, hash, mode);
        assert name in old(Records());
      } else {
        Insert(name, Created(host, size, hash, mode));
        assert name !in old(Records());
      }
    }

    method AddWithMode(name: string, host: string, size: Usize, hash: string, mode: nat)
      requires Valid()
      modifies this`secrets, this`disk, secrets.Values
      ensures Valid() && fresh(secrets.Values - old(secrets.Values))
      ensures View() == Add(old(View()), name, host, size, hash, mode)
      ensures Durable()
    {
      Enrol(name, host, size, hash, mode);
      PersistLocked();
    }

    /** Put a new record under a name, in place of any record already there. */
    method Insert(name: string, value: Rec)
      requires Valid()
      modifies this`secrets
      ensures Valid() && fresh(secrets.Values - old(secrets.Values))
      ensures secrets.Keys == old(secrets.Keys) + {name}
      ensures forall n :: n in old(secrets) && n != name ==> secrets[n] == old(secrets[n])
      ensures Records() == old(Records())[name := value]
    {
      var rec := new SecretRecord(value);
      secrets := secrets[name := rec];
      forall r | r in secrets.Values ensures r == rec || r in old(secrets.Values) {
        var n :| n in secrets && secrets[n] == r;
        if n != name {
          assert r == old(secrets)[n];
        }
      }
    }

    method Drop(name: string)
      requires Valid()
      modifies this`secrets
      ensures Valid() && secrets.Values <= old(secrets.Values)
      ensures View() == Remove(old(View()), name)
    {
      secrets := secrets - {name};
      assert forall n :: n in secrets ==> old(secrets)[n] == secrets[n];
      assert Records() == old(Records()) - {name};
    }

    method RemoveSecret(name: string) returns (existed: bool)
      requires Valid()
      modifies this`secrets, this`disk
      ensures Valid() && secrets.Values <= old(secrets.Values)
      ensures existed == (name in old(secrets))
      ensures View() == Remove(old(View()), name)
      ensures existed ==> Durable()
      ensures !existed ==> disk == old(disk) && View() == old(View())
    {
      existed := name in secrets;
      if existed {
        Drop(name);
        PersistLocked();
      } else {
        assert old(Records()) - {name} == Records();
      }
    }

    method ClearOne(name: string)
      requires Valid() && name in secrets
      modifies secrets.Values
      ensures View() == ResetOne(old(View()), name)
    {
      secrets[name].Clear();
      OneRecordChanged(name);
    }

    method ClearEvery()
      requires Valid()
      modifies secrets.Values
      ensures View() == Policy.ResetAll(old(View()))
    {
      var todo := secrets.Keys;
      while todo != {}
        invariant todo <= secrets.Keys
        invariant forall n :: n in secrets && n in todo ==> secrets[n].Value() == old(secrets[n].Value())
        invariant forall n :: n in secrets && n !in todo ==> secrets[n].Value() == Reset(old(secrets[n].Value()))
        decreases todo
      {
        var n :| n in todo;
        secrets[n].Clear();
        todo := todo - {n};
      }
      assert Records() == Policy.ResetAll(old(View())).secrets;
    }

    /** Clears one record, or every one, and counts them. */
    method ClearNamed(name: Option<string>) returns (cleared: nat)
      requires Valid()
      modifies secrets.Values
      ensures cleared == if name.None? then |secrets| else if name.value in secrets then 1 else 0
      ensures View() == if name.None? then Policy.ResetAll(old(View())) else ResetOne(old(View()), name.value)
      ensures cleared == 0 ==> View() == old(View())
    {
      if name.None? {
        ClearEvery();
        cleared := |secrets|;
        assert cleared == 0 ==> secrets == map[] && Records() == old(Records());
      } else if name.value in secrets {
        ClearOne(name.value);
        cleared := 1;
      } else {
        cleared := 0;
      }
    }

    /** Clears one record, or every one, and persists if there was any; the count of cleared records is returned. */
    method ResetBookkeeping(name: Option<string>) returns (cleared: nat)
      requires Valid()
      modifies this`disk, secrets.Values
      ensures Valid()
      ensures cleared == if name.None? then |secrets| else if name.value in secrets then 1 else 0
      ensures View() == if name.None? then Policy.ResetAll(old(View())) else ResetOne(old(View()), name.value)
      ensures cleared > 0 ==> Durable()
      ensures cleared == 0 ==> disk == old(disk) && View() == old(View())
    {
      cleared := ClearNamed(name);
      if cleared > 0 {
        PersistLocked();
      }
    }

    method RotateHash(name: string, hash: string) returns (rotated: bool)
      requires Valid()
      modifies this`disk, secrets.Values
      ensures Valid()
      ensures rotated == (name in secrets)
      ensures View() == Policy.Rotate(old(View()), name, hash)
      ensures rotated ==> Durable()
      ensures !rotated ==> disk == old(disk)
      ensures old(Durable()) ==> Durable()
    {
      rotated := name in secrets;
      if rotated {
        secrets[name].hashes := [Permitted(hash, None)];
        OneRecordChanged(name);
        PersistLocked();
      }
    }

    method SetLockdown(on: bool)
      modifies this`lockdown, this`disk
      ensures View() == old(View()).(lockdown := on)
      ensures Durable()
    {
      lockdown := on;
      PersistLocked();
    }

    // ── pendings ─────────────────────────────────────────────────

    method GrantPending(now: nat, id: nat) returns (granted: bool)
      modifies this`pending
      ensures granted == Grantable(old(View()), id, now)
      ensures View() == Grant(old(View()), id, now)
      ensures old(Durable()) ==> Durable()
    {
      if id in pending && pending[id].expires > now {
        pending := pending[id := pending[id].(granted := true)];
        return true;
      }
      return false;
    }

    method DenyPending(id: nat) returns (denied: bool)
      modifies this`pending
      ensures denied == (id in old(pending))
      ensures View() == Deny(old(View()), id)
      ensures old(Durable()) ==> Durable()
    {
      denied := id in pending;
      pending := pending - {id};
    }

    method CleanupExpired(now: nat)
      modifies this`pending
      ensures View() == Cleanup(old(View()), now)
      ensures old(Durable()) ==> Durable()
    {
      pending := map id | id in pending && (pending[id].expires > now || pending[id].hash.Some?) :: pending[id];
    }

    /** The pid of a live pending that still lacks a hash, for a late lookup. */
    method PendingPidNeedingHash(now: nat, id: nat) returns (pid: Option<nat>)
      ensures pid.Some? <==> id in pending && pending[id].hash.None? && pending[id].expires > now
      ensures pid.Some? ==> pid.value == pending[id].pid
    {
      if id in pending && pending[id].hash.None? && pending[id].expires > now {
        return Some(pending[id].pid);
      }
      return None;
    }

    method RefreshPendingHash(id: nat, hash: Option<string>, hashError: Option<string>)
      modifies this`pending
      ensures View() == RefreshHash(old(View()), id, hash, hashError)
      ensures old(Durable()) ==> Durable()
    {
      if id in pending {
        pending := pending[id := pending[id].(hash := hash, hashError := hashError)];
      }
    }

    method WhitelistRecord(name: string, hash: string, who: Option<string>)
      requires Valid() && name in secrets
      modifies secrets.Values
      ensures Records() == old(Records())[name := Whitelisted(old(Records())[name], hash, who)]
    {
      secrets[name].Whitelist(hash, who);
      OneRecordChanged(name);
    }

    /** Whether grant-forever has something to whitelist. A remembered denial, expired but with a hash, still does. */
    method CheckForever(id: nat, now: nat) returns (result: ForeverResult)
      ensures result == ForeverDecision(View(), id, now)
      ensures result.Whitelisting? ==>
        id in pending && pending[id].hash.Some? && pending[id].secret in secrets
    {
      if id !in pending {
        return Refused(NoSuchPending);
      }
      var entry := pending[id];
      if entry.expires <= now && entry.hash.None? {
        return Refused(PendingExpired);
      }
      if entry.hash.None? {
        return Refused(NothingToWhitelist(entry.hashError));
      }
      if entry.secret !in secrets {
        return Refused(SecretGone);
      }
      return Whitelisting;
    }

    /**
     * The clock is read three times. When the pending expires between the second reading and the third,
     * the whitelisting has happened in memory, the caller is told it failed, and nothing is written.
     */
    method GrantPendingForever(id: nat, t0: nat, t1: nat, t2: nat) returns (result: ForeverResult)
      requires Valid() && t0 <= t1 <= t2
      modifies this`pending, this`disk, secrets.Values
      ensures Valid()
      ensures result == ForeverOutcome(old(View()), id, t0, t1, t2)
      ensures View() == Forever(old(View()), id, t0, t1, t2)
      ensures result.Whitelisting? ==> Durable()
      ensures !result.Whitelisting? ==> disk == old(disk)
    {
      result := CheckForever(id, t0);
      if result.Refused? {
        return;
      }
      var entry := pending[id];
      WhitelistRecord(entry.secret, entry.hash.value, entry.process);
      assert View() == Policy.Whitelist(old(View()), id);
      var expiredRemembered := entry.expires <= t1;
      var granted := GrantPending(t2, id);
      if !granted && !expiredRemembered {
        return Refused(PendingVanished);
      }
      PersistLocked();
      return Whitelisting;
    }
  }
}
