/**
 * What the rules of the policy daemon promise. Each lemma says, of every state and request, what comes of a command
 * in terms of what was there before, and does not mention the rule that decides it.
 */
module Promises {
  import opened Text
  import opened Records
  import opened PolicyStore
  import opened Policy
  import opened Hub
  import opened Handler

  // ── who may read ───────────────────────────────────────────────

  /** Some listed hash is the wildcard or the one observed. */
  predicate Permits(hashes: seq<Permitted>, observed: Option<string>) {
    exists i :: 0 <= i < |hashes| && (hashes[i].hash == "*" || observed == Some(hashes[i].hash))
  }

  /** Some listed entry is for this hash. */
  predicate Names(hashes: seq<Permitted>, hash: string) {
    exists i :: 0 <= i < |hashes| && hashes[i].hash == hash
  }

  /** A budget not yet spent, or none to spend. */
  predicate HasBudget(rec: Rec) {
    rec.count == 0 || rec.unlimited
  }

  lemma AdmitsIsPermits(hashes: seq<Permitted>, observed: Option<string>)
    ensures Admits(hashes, observed) <==> Permits(hashes, observed)
  {
    if Permits(hashes, observed) {
      var i :| 0 <= i < |hashes| && (hashes[i].hash == "*" || observed == Some(hashes[i].hash));
    }
    if Lists(hashes, WILDCARD_HASH) {
      var i :| 0 <= i < |hashes| && hashes[i].hash == WILDCARD_HASH;
    } else if Admits(hashes, observed) {
      var i :| 0 <= i < |hashes| && hashes[i].hash == observed.value;
    }
  }

  /** The text of an entry is its hash, and in parentheses by whom, if somebody is named. */
  predicate EntryTexts(texts: seq<string>, hashes: seq<Permitted>) {
    && |texts| == |hashes|
    && forall i :: 0 <= i < |hashes| ==>
         texts[i] == match hashes[i].who case None => hashes[i].hash case Some(w) => hashes[i].hash + " (by " + w + ")"
  }

  ghost predicate TellsList(text: string, hashes: seq<Permitted>) {
    exists texts :: EntryTexts(texts, hashes) && text == Join(texts, " | ")
  }

  lemma TextsTell(hashes: seq<Permitted>)
    ensures TellsList(Join(Rendered(hashes), HASH_JOIN_SEP), hashes)
  {
    assert EntryTexts(Rendered(hashes), hashes);
  }

  /** A process that goes on with its own stream is refused only for going back over what it was given. */
  lemma StreamAdmission(rec: Rec, pid: nat, observed: Option<string>, offset: Usize, lockdown: bool)
    requires rec.reader == Some(pid)
    ensures
      var d := Decide(rec, pid, observed, offset, lockdown);
      && (d.Granted? || d.AlreadyAccessed?)
      && (d.AlreadyAccessed? <==> !rec.unlimited && offset < rec.progress)
  {
  }

  /**
   * Any other read is granted exactly when there is a budget and the list permits the package. Without a budget it
   * is refused as already read; with one and unlisted, it is refused by the lockdown if that is armed and as a
   * mismatch if not, and the mismatch names the package, if known, and the whole list.
   */
  lemma FirstReadAdmission(rec: Rec, pid: nat, observed: Option<string>, offset: Usize, lockdown: bool)
    requires rec.reader != Some(pid)
    ensures
      var d := Decide(rec, pid, observed, offset, lockdown);
      && (d.Granted? <==> HasBudget(rec) && Permits(rec.hashes, observed))
      && (d.AlreadyAccessed? <==> !HasBudget(rec))
      && (d.DeniedLocked? <==> HasBudget(rec) && !Permits(rec.hashes, observed) && lockdown)
      && (d.HashMismatch? <==> HasBudget(rec) && !Permits(rec.hashes, observed) && !lockdown)
      && (d.HashMismatch? ==>
            && d.got == (if observed.Some? then observed.value else "<unknown>")
            && TellsList(d.expected, rec.hashes))
  {
    AdmitsIsPermits(rec.hashes, observed);
    TextsTell(rec.hashes);
  }

  /** The reader is told why: what is granted needs no reason, and each cause of a denial gives its own. */
  lemma DenialTexts(rec: Rec, pid: nat, observed: Option<string>, offset: Usize, lockdown: bool)
    ensures
      var d := Decide(rec, pid, observed, offset, lockdown);
      && (d.Reason().None? <==> d.Granted?)
      && (d.AlreadyAccessed? ==> d.Reason() == Some("exceeded access limit"))
      && (d.DeniedLocked? ==> d.Reason() == Some("lockdown armed: new unauthorized access is refused"))
      && (d.HashMismatch? ==>
            d.Reason() == Some("hash mismatch: got " + d.got + ", expected " + d.expected))
  {
  }

  /** The host's facts and the permissions of a record; reads leave them alone. */
  predicate SameFacts(a: Rec, b: Rec) {
    a.host == b.host && a.size == b.size && a.mode == b.mode && a.hashes == b.hashes && a.unlimited == b.unlimited
  }

  /** Budget and stream of a record. */
  predicate SameStream(a: Rec, b: Rec) {
    a.count == b.count && a.reader == b.reader && a.progress == b.progress
  }

  /**
   * A refused read changes nothing. A granted one opens its reader's stream at one more count, or goes on with it at
   * the same count, and from the offset on, the stream passes just what had been passed and what is asked for.
   */
  lemma ReadEffects(
    rec: Rec, pid: nat, observed: Option<string>, offset: Usize, size: Usize, lockdown: bool, b: nat)
    ensures
      var d := Decide(rec, pid, observed, offset, lockdown);
      var next := AfterAttempt(rec, pid, observed, offset, size, lockdown);
      && SameFacts(rec, next)
      && (!d.Granted? ==> SameStream(rec, next))
      && (d.Granted? ==>
            && next.reader == Some(pid)
            && next.count == (if rec.reader == Some(pid) then rec.count else rec.count + 1)
            && (offset <= b ==>
                  (b < next.progress <==>
                     Asks(offset, size, rec.size, b) || (rec.reader == Some(pid) && b < rec.progress))))
  {
    EndExact(rec, offset, size, b);
  }

  /** A manual grant counts, hands the stream to its reader, and passes what it asks for beyond what had been passed. */
  lemma ManualEffects(rec: Rec, pid: nat, offset: Usize, size: Usize, b: nat)
    ensures
      var next := AfterManual(rec, pid, offset, size);
      && SameFacts(rec, next) && next.count == rec.count + 1 && next.reader == Some(pid)
      && rec.progress <= next.progress
      && (offset <= b ==> (b < next.progress <==> Asks(offset, size, rec.size, b) || b < rec.progress))
  {
    EndExact(rec, offset, size, b);
  }

  /** What the reader is told, and what is left behind. Only a refusal by the lockdown leaves a pending. */
  lemma AttemptEffects(
    s: State, now: nat, name: string, pid: nat, observed: Option<string>, offset: Usize, size: Usize)
    ensures
      var o, v := AttemptOutcome(s, name, pid, observed, offset), Attempt(s, now, name, pid, observed, offset, size);
      && (o.NotFound? <==> name !in s.secrets)
      && v.secrets.Keys == s.secrets.Keys && v.timeout == s.timeout && v.lockdown == s.lockdown && v.salt == s.salt
      && (forall n :: n in s.secrets && n != name ==> v.secrets[n] == s.secrets[n])
      && (name in s.secrets ==>
            && o == Decide(s.secrets[name], pid, observed, offset, s.lockdown)
            && v.secrets[name] == AfterAttempt(s.secrets[name], pid, observed, offset, size, s.lockdown))
      && (!o.DeniedLocked? ==> v.pending == s.pending && v.nextId == s.nextId)
      && (o.DeniedLocked? ==>
            && v.nextId == s.nextId + 1
            && v.pending == s.pending[s.nextId :=
                 Pending(name, None, pid, observed, None, REASON_LOCKDOWN, now + s.timeout, false)])
  {
  }

  // ── what commands do to a record ───────────────────────────────

  /** A new secret permits just its one package, has a fresh budget, and keeps of its mode the low nine bits. */
  lemma CreatedIsFresh(host: string, size: Usize, hash: string, mode: nat, observed: Option<string>)
    ensures
      var rec := Created(host, size, hash, mode);
      && rec.host == host && rec.size == size && HasBudget(rec) && !rec.unlimited && Streamable(rec)
      && (Permits(rec.hashes, observed) <==> hash == "*" || observed == Some(hash))
      && rec.mode <= 0x1FF && (exists k: nat :: mode == k * 0x200 + rec.mode)
  {
    assert mode == (mode / 0x200) * 0x200 + PlainMode(mode);
    assert Created(host, size, hash, mode).hashes[0].hash == hash;
  }

  /** Re-adding joins its package to the list, refreshes the host's facts, and leaves budget, stream and limit. */
  lemma ReAddJoins(rec: Rec, host: string, size: Usize, hash: string, mode: nat, h: string)
    ensures
      var next := ReAdded(rec, host, size, hash, mode);
      && SameStream(rec, next) && next.unlimited == rec.unlimited
      && next.host == host && next.size == size && next.mode == Created(host, size, hash, mode).mode
      && rec.hashes <= next.hashes && |next.hashes| <= |rec.hashes| + 1
      && (Names(next.hashes, h) <==> Names(rec.hashes, h) || h == hash)
  {
    ListsAfterAppend(rec.hashes, Permitted(hash, None), h);
    var next := ReAdded(rec, host, size, hash, mode);
    assert Lists(rec.hashes, h) <==> Names(rec.hashes, h);
    assert Lists(next.hashes, h) <==> Names(next.hashes, h);
  }

  /** After a reset the budget is fresh: any process may read from anywhere, if the list permits its package. */
  lemma ResetIsFresh(rec: Rec, pid: nat, observed: Option<string>, offset: Usize, lockdown: bool)
    ensures SameFacts(rec, Reset(rec)) && HasBudget(Reset(rec)) && Streamable(Reset(rec))
    ensures Decide(Reset(rec), pid, observed, offset, lockdown).Granted? <==> Permits(rec.hashes, observed)
  {
    FirstReadAdmission(Reset(rec), pid, observed, offset, lockdown);
  }

  /** Rotation revokes: the list names the one package and no other, whatever it named before. */
  lemma RotationRevokes(rec: Rec, hash: string, h: string)
    ensures Names(Rotated(rec, hash).hashes, h) <==> h == hash
    ensures SameStream(rec, Rotated(rec, hash)) && Rotated(rec, hash).(hashes := rec.hashes) == rec
  {
    assert Rotated(rec, hash).hashes[0].hash == hash;
  }

  /** The list names `hash` and nothing else. */
  predicate OnlyNames(hashes: seq<Permitted>, hash: string) {
    hashes != [] && forall i :: 0 <= i < |hashes| ==> hashes[i].hash == hash
  }

  /** With one package on the list, a read by another that does not go on with a stream is refused. */
  lemma OnlyNamedRead(rec: Rec, hash: string, pid: nat, observed: Option<string>, offset: Usize, lockdown: bool)
    requires OnlyNames(rec.hashes, hash) && rec.reader != Some(pid)
    ensures Decide(rec, pid, observed, offset, lockdown).Granted? <==>
      HasBudget(rec) && (hash == "*" || observed == Some(hash))
  {
    FirstReadAdmission(rec, pid, observed, offset, lockdown);
    assert rec.hashes[0].hash == hash;
  }

  /**
   * Once rotated, a secret is read by the new package only, after any events but another rotation, a re-add and a
   * grant-forever; but a stream that had been opened goes on, rotation or not.
   */
  lemma {:induction false} RotationLasts(
    rec: Rec, hash: string, events: seq<Event>, pid: nat, observed: Option<string>, offset: Usize, lockdown: bool)
    requires OnlyNames(rec.hashes, hash)
    requires forall e :: e in events ==> !e.Rotate? && !e.ReAdd? && !e.Whitelist?
    ensures
      var next := AfterAll(rec, events);
      && OnlyNames(next.hashes, hash)
      && (next.reader != Some(pid) ==>
            (Decide(next, pid, observed, offset, lockdown).Granted? <==>
               HasBudget(next) && (hash == "*" || observed == Some(hash))))
    decreases |events|
  {
    if events == [] {
      if rec.reader != Some(pid) {
        OnlyNamedRead(rec, hash, pid, observed, offset, lockdown);
      }
    } else {
      assert events[0] in events && forall e :: e in events[1..] ==> e in events;
      RotationLasts(After(rec, events[0]), hash, events[1..], pid, observed, offset, lockdown);
    }
  }

  lemma RotationKeepsStream(rec: Rec, hash: string, pid: nat, observed: Option<string>, offset: Usize, lockdown: bool)
    requires rec.reader == Some(pid)
    ensures Decide(Rotated(rec, hash), pid, observed, offset, lockdown) == Decide(rec, pid, observed, offset, lockdown)
  {
  }

  /** Entry `i` is the first for the hash. */
  predicate FirstFor(hashes: seq<Permitted>, hash: string, i: nat) {
    i < |hashes| && hashes[i].hash == hash && forall j :: 0 <= j < i ==> hashes[j].hash != hash
  }

  /** The process is named by an entry that names nobody yet. */
  function NamedBy(entry: Permitted, who: Option<string>): Permitted {
    Permitted(entry.hash, if entry.who.Some? then entry.who else who)
  }

  /** The first entry for a hash, and nothing else, is attributed to the process, unless it names one already. */
  ghost predicate AttributedOnce(was: seq<Permitted>, now: seq<Permitted>, hash: string, who: Option<string>) {
    exists i: nat :: FirstFor(was, hash, i) && now == was[i := NamedBy(was[i], who)]
  }

  lemma AttributedBehind(head: Permitted, was: seq<Permitted>, now: seq<Permitted>, hash: string, who: Option<string>)
    requires head.hash != hash && AttributedOnce(was, now, hash, who)
    ensures AttributedOnce([head] + was, [head] + now, hash, who)
  {
    var k: nat :| FirstFor(was, hash, k) && now == was[k := NamedBy(was[k], who)];
    var all := [head] + was;
    assert all[k + 1] == was[k] && forall j :: 0 < j < k + 1 ==> all[j] == was[j - 1];
    assert FirstFor(all, hash, k + 1) && [head] + now == all[k + 1 := NamedBy(all[k + 1], who)];
  }

  lemma AttributedAtHead(hashes: seq<Permitted>, hash: string, who: Option<string>)
    requires hashes != [] && hashes[0].hash == hash
    ensures AttributedOnce(hashes, Attributed(hashes, hash, who), hash, who)
  {
    assert FirstFor(hashes, hash, 0);
    assert [NamedBy(hashes[0], who)] + hashes[1..] == hashes[0 := NamedBy(hashes[0], who)];
  }

  lemma NamedBehind(hashes: seq<Permitted>, hash: string)
    requires Names(hashes, hash) && hashes[0].hash != hash
    ensures Names(hashes[1..], hash)
  {
    var i :| 0 <= i < |hashes| && hashes[i].hash == hash;
    assert hashes[1..][i - 1].hash == hash;
  }

  lemma {:induction false} AttributesFirst(hashes: seq<Permitted>, hash: string, who: Option<string>)
    requires Names(hashes, hash)
    ensures AttributedOnce(hashes, Attributed(hashes, hash, who), hash, who)
  {
    if hashes[0].hash == hash {
      AttributedAtHead(hashes, hash, who);
    } else {
      NamedBehind(hashes, hash);
      AttributesFirst(hashes[1..], hash, who);
      AttributedBehind(hashes[0], hashes[1..], Attributed(hashes[1..], hash, who), hash, who);
      assert [hashes[0]] + hashes[1..] == hashes;
    }
  }

  /** Grant-forever lifts the limit and has the package on the list, attributed to the process; the rest stays. */
  lemma WhitelistEffects(rec: Rec, hash: string, who: Option<string>)
    ensures
      var next := Whitelisted(rec, hash, who);
      && SameStream(rec, next) && next.unlimited
      && next.host == rec.host && next.size == rec.size && next.mode == rec.mode
      && (Names(rec.hashes, hash) ==> AttributedOnce(rec.hashes, next.hashes, hash, who))
      && (!Names(rec.hashes, hash) ==> next.hashes == rec.hashes + [Permitted(hash, who)])
  {
    assert Lists(rec.hashes, hash) <==> Names(rec.hashes, hash);
    if Names(rec.hashes, hash) {
      AttributesFirst(rec.hashes, hash, who);
    }
  }

  // ── the life of a pending ──────────────────────────────────────

  /**
   * A pending is alive for the timeout. Granted while alive, it is found granted for as long as it lives; denied, it
   * is found denied; left alone, it is found neither until it expires and counts as denied from then on.
   */
  lemma PendingLife(s: State, p: Pending, born: nat, granted: nat, looked: nat)
    ensures
      var v, id := Mint(s, born, p), s.nextId;
      var expires := born + s.timeout;
      && (IsGranted(Grant(v, id, granted), id, looked) <==> granted < expires && looked < expires)
      && !IsGranted(v, id, looked)
      && (IsDenied(v, id, looked) <==> expires <= looked)
      && IsDenied(Deny(v, id), id, looked) && !IsGranted(Deny(v, id), id, looked)
      && (IsDenied(Grant(v, id, granted), id, looked) <==> expires <= looked)
  {
  }

  /** Grants and denials leave every other pending alone, and all records. */
  lemma OthersStay(s: State, id: nat, other: nat, now: nat)
    requires other != id
    ensures
      && (other in Grant(s, id, now).pending <==> other in s.pending)
      && (other in Deny(s, id).pending <==> other in s.pending)
      && (other in s.pending ==>
            Grant(s, id, now).pending[other] == Deny(s, id).pending[other] == s.pending[other])
    ensures Grant(s, id, now).(pending := s.pending) == s && Deny(s, id).(pending := s.pending) == s
  {
  }

  /** Granting marks the pending and leaves the rest of it as it was. */
  lemma GrantOnlyMarks(s: State, id: nat, now: nat)
    requires id in s.pending
    ensures id in Grant(s, id, now).pending
    ensures Grant(s, id, now).pending[id].(granted := s.pending[id].granted) == s.pending[id]
  {
  }

  /** Cleaning up drops what has expired without a hash, which nobody could have acted on any more. */
  lemma CleanupDropsTheUseless(s: State, now: nat, id: nat, t0: nat, t1: nat, t2: nat)
    requires now <= t0
    ensures
      var v := Cleanup(s, now);
      && v.(pending := s.pending) == s
      && (id in v.pending ==> id in s.pending && v.pending[id] == s.pending[id])
      && (id in s.pending && id !in v.pending <==>
            id in s.pending && s.pending[id].expires <= now && s.pending[id].hash.None?)
      && IsGranted(v, id, t0) == IsGranted(s, id, t0) && IsDenied(v, id, t0) == IsDenied(s, id, t0)
      && Grantable(v, id, t0) == Grantable(s, id, t0)
      && (ForeverOutcome(v, id, t0, t1, t2).Whitelisting? <==> ForeverOutcome(s, id, t0, t1, t2).Whitelisting?)
  {
  }

  // ── when grant-forever succeeds ────────────────────────────────

  /** There is something to whitelist: a pending with a hash, on a secret that is there. */
  predicate Grounds(s: State, id: nat) {
    id in s.pending && s.pending[id].hash.Some? && s.pending[id].secret in s.secrets
  }

  /**
   * Grant-forever succeeds exactly when there is something to whitelist and the pending does not expire between
   * the last two looks at the clock. That the pending had expired before is no obstacle.
   */
  lemma ForeverSucceeds(s: State, id: nat, t0: nat, t1: nat, t2: nat)
    requires t0 <= t1 <= t2
    ensures ForeverOutcome(s, id, t0, t1, t2).Whitelisting? <==> Grounds(s, id) && !(t1 < s.pending[id].expires <= t2)
  {
  }

  /** And each refusal has its own ground. */
  lemma ForeverRefusals(s: State, id: nat, t0: nat, t1: nat, t2: nat)
    requires t0 <= t1 <= t2
    ensures
      var o := ForeverOutcome(s, id, t0, t1, t2);
      && (o == Refused(NoSuchPending) <==> id !in s.pending)
      && (o == Refused(PendingExpired) <==>
            id in s.pending && s.pending[id].hash.None? && s.pending[id].expires <= t0)
      && (id in s.pending && s.pending[id].hash.None? && t0 < s.pending[id].expires <==>
            o.Refused? && o.error.NothingToWhitelist?)
      && (o.Refused? && o.error.NothingToWhitelist? ==> o.error.why == s.pending[id].hashError)
      && (o == Refused(SecretGone) <==>
            id in s.pending && s.pending[id].hash.Some? && s.pending[id].secret !in s.secrets)
      && (o == Refused(PendingVanished) <==> Grounds(s, id) && t1 < s.pending[id].expires <= t2)
  {
  }

  /**
   * What it leaves: with grounds, the record admits the package for good, whether it reports success or not; the
   * pending is granted if it lives on. Without grounds, nothing has changed.
   */
  lemma ForeverEffects(s: State, id: nat, t0: nat, t1: nat, t2: nat, pid: nat, offset: Usize, lockdown: bool)
    requires t0 <= t1 <= t2
    ensures
      var v := Forever(s, id, t0, t1, t2);
      && v.(secrets := s.secrets, pending := s.pending) == s && v.secrets.Keys == s.secrets.Keys
      && (!Grounds(s, id) ==> v == s)
      && (Grounds(s, id) ==>
            var p := s.pending[id];
            && v.secrets == s.secrets[p.secret := Whitelisted(s.secrets[p.secret], p.hash.value, p.process)]
            && Decide(v.secrets[p.secret], pid, p.hash, offset, lockdown).Granted?
            && (IsGranted(v, id, t2) <==> t2 < p.expires))
      && (forall other :: other in s.pending && other != id ==>
            other in v.pending && v.pending[other] == s.pending[other])
  {
    if Grounds(s, id) {
      var p := s.pending[id];
      WhitelistedLists(s.secrets[p.secret], p.hash.value, p.process, p.hash.value);
      EntitledReadsAreGranted(
        Whitelisted(s.secrets[p.secret], p.hash.value, p.process), p.hash.value, pid, offset, lockdown);
    }
  }

  /** A denial remembered past its expiry can still be granted forever, and its package reads from then on. */
  lemma RememberedDenialIsGrantable(
    s: State, now: nat, id: nat, t0: nat, t1: nat, t2: nat, pid: nat, offset: Usize, lockdown: bool)
    requires now <= t0 <= t1 <= t2
    requires id in Cleanup(s, now).pending && s.pending[id].expires <= now && s.pending[id].secret in s.secrets
    ensures
      var kept := Cleanup(s, now);
      var v := Forever(kept, id, t0, t1, t2);
      && kept.pending[id].hash.Some? && ForeverOutcome(kept, id, t0, t1, t2).Whitelisting?
      && Decide(v.secrets[s.pending[id].secret], pid, s.pending[id].hash, offset, lockdown).Granted?
  {
    CleanupDropsTheUseless(s, now, id, t0, t1, t2);
    ForeverSucceeds(Cleanup(s, now), id, t0, t1, t2);
    ForeverEffects(Cleanup(s, now), id, t0, t1, t2, pid, offset, lockdown);
  }

  /**
   * A pending without a hash is looked up once more while it lives: what the lookup finds is whitelisted, and why it
   * found nothing is the refusal.
   */
  lemma LateLookup(s: State, id: nat, lookup: (Option<string>, Option<string>), t0: nat, t1: nat, t2: nat)
    requires t0 <= t1 <= t2 && id in s.pending && s.pending[id].hash.None?
    requires s.pending[id].secret in s.secrets && !(t1 < s.pending[id].expires <= t2)
    ensures
      var p, looked := s.pending[id], LookedUp(s, id, lookup, t0);
      var o := ForeverOutcome(looked, id, t0, t1, t2);
      && (p.expires <= t0 ==> o == Refused(PendingExpired))
      && (t0 < p.expires && lookup.0.None? ==> o == Refused(NothingToWhitelist(lookup.1)))
      && (t0 < p.expires && lookup.0.Some? ==>
            && o.Whitelisting?
            && Names(Forever(looked, id, t0, t1, t2).secrets[p.secret].hashes, lookup.0.value))
  {
    var looked := LookedUp(s, id, lookup, t0);
    if t0 < s.pending[id].expires && lookup.0.Some? {
      var p := looked.pending[id];
      WhitelistedLists(looked.secrets[p.secret], p.hash.value, p.process, p.hash.value);
      assert Lists(Forever(looked, id, t0, t1, t2).secrets[p.secret].hashes, lookup.0.value);
    }
  }

  // ── what the operator is answered ──────────────────────────────

  /** The commands on records. */
  lemma RecordAnswers(s: State, r: Request, anonymize: Anonymizer, t0: nat, t1: nat, t2: nat)
    ensures
      var a, v := Answer(s, r, anonymize, t0, t1, t2), Handled(s, r, t0, t1, t2);
      && (r.AddSecret? ==>
            && (a.Failed? <==> !r.file.Regular?)
            && (a.Failed? ==> v == s)
            && (!a.Failed? ==>
                  && a == Added(anonymize(s.salt, r.name)) && r.name in v.secrets
                  && v.secrets[r.name].host == r.file.host && v.secrets[r.name].size == r.file.size
                  && Names(v.secrets[r.name].hashes, r.hash)))
      && (r.RemoveSecret? ==>
            && (a.Done? <==> r.name in s.secrets) && (a.Failed? <==> r.name !in s.secrets)
            && r.name !in v.secrets && (a.Failed? ==> v == s))
      && (r.RotateHash? ==>
            && (a.Done? <==> r.name in s.secrets) && (a.Failed? <==> r.name !in s.secrets)
            && (a.Failed? ==> v == s)
            && (a.Done? ==> OnlyNames(v.secrets[r.name].hashes, r.hash)))
      && (r.ResetSecret? ==>
            && v.secrets.Keys == s.secrets.Keys
            && (a.Failed? <==> r.only.Some? && r.only.value !in s.secrets) && (a.Done? <==> !a.Failed?)
            && (forall n :: n in s.secrets ==>
                  v.secrets[n] == if r.only.None? || r.only.value == n then Reset(s.secrets[n]) else s.secrets[n]))
  {
    if r.AddSecret? && r.file.Regular? && r.name in s.secrets {
      ReAddJoins(s.secrets[r.name], r.file.host, r.file.size, r.hash, PlainMode(r.mode), r.hash);
    } else if r.AddSecret? && r.file.Regular? {
      assert Handled(s, r, t0, t1, t2).secrets[r.name].hashes[0].hash == r.hash;
    }
    if r.RemoveSecret? && r.name !in s.secrets {
      assert s.secrets - {r.name} == s.secrets;
    }
  }

  /** Data daemons are told of an add or a remove exactly when it is not refused, and of nothing else. */
  lemma AnnouncedUnlessRefused(s: State, r: Request, anonymize: Anonymizer, t0: nat, t1: nat, t2: nat)
    ensures
      var said, a := Said(s, r, anonymize), Answer(s, r, anonymize, t0, t1, t2);
      && (said != [] <==> (r.AddSecret? || r.RemoveSecret?) && !a.Failed?)
      && (said != [] && r.RemoveSecret? ==> said == [Withdraw(r.name)])
      && (said != [] && r.AddSecret? ==>
            said == [Command.Serve(r.name, a.inner, Handled(s, r, t0, t1, t2).secrets[r.name].mode)])
  {
    assert PlainMode(PlainMode(if r.AddSecret? then r.mode else 0)) == PlainMode(if r.AddSecret? then r.mode else 0);
  }

  /** A size seen on the host is taken over, and changes nothing else. */
  lemma ObservedSize(s: State, name: string, size: Usize)
    ensures Observe(s, name, size).(secrets := s.secrets) == s
    ensures Observe(s, name, size).secrets ==
      if name in s.secrets then s.secrets[name := s.secrets[name].(size := size)] else s.secrets
  {
  }

  /** A restart keeps everything but streams; sizes are seen anew, and a file that is gone counts as empty. */
  lemma RestartEffects(secrets: map<string, Rec>, sizes: HostSizes, name: string)
    requires name in secrets
    ensures
      var was, now := secrets[name], ReviveAll(ProjectAll(secrets), sizes)[name];
      && now.host == was.host && now.mode == was.mode && now.hashes == was.hashes
      && now.count == was.count && now.unlimited == was.unlimited
      && now.reader == None && now.progress == 0
      && (was.host in sizes ==> now.size == sizes[was.host]) && (was.host !in sizes ==> now.size == 0)
  {
  }

  /** What each command on records leaves of the other secrets. */
  lemma OtherSecretsStay(s: State, r: Request, t0: nat, t1: nat, t2: nat, n: string)
    requires r.AddSecret? || r.RemoveSecret? || r.RotateHash?
    requires n != r.name
    ensures
      var v := Handled(s, r, t0, t1, t2);
      (n in v.secrets <==> n in s.secrets) && (n in s.secrets ==> v.secrets[n] == s.secrets[n])
  {
  }

  /** The commands on pendings. */
  lemma PendingAnswers(s: State, r: Request, anonymize: Anonymizer, t0: nat, t1: nat, t2: nat)
    requires t0 <= t1 <= t2
    ensures
      var a, v := Answer(s, r, anonymize, t0, t1, t2), Handled(s, r, t0, t1, t2);
      && (r.GrantOnce? ==>
            && (a.Done? <==> r.id in s.pending && t0 < s.pending[r.id].expires) && (a.Failed? <==> !a.Done?)
            && (a.Done? ==> IsGranted(v, r.id, t0)) && (a.Failed? ==> v == s))
      && (r.DenyRequest? ==>
            && (a.Done? <==> r.id in s.pending) && (a.Failed? <==> !a.Done?)
            && r.id !in v.pending && (a.Failed? ==> v == s))
      && (r.GrantForever? ==>
            && (a.Done? || a.Failed?)
            && var looked := LookedUp(s, r.id, r.lookup, t0);
               (a.Done? <==> Grounds(looked, r.id) && !(t1 < looked.pending[r.id].expires <= t2)))
      && (r.ListPending? ==>
            && a.Done?
            && (forall id :: id in v.pending <==>
                  id in s.pending && (t0 < s.pending[id].expires || s.pending[id].hash.Some?))
            && (forall id :: id in v.pending ==> v.pending[id] == s.pending[id]))
      && v.(pending := s.pending, secrets := s.secrets, lockdown := s.lockdown) == s
  {
    if r.GrantForever? {
      ForeverSucceeds(LookedUp(s, r.id, r.lookup, t0), r.id, t0, t1, t2);
    }
    if r.DenyRequest? && r.id !in s.pending {
      assert s.pending - {r.id} == s.pending;
    }
  }

  /**
   * Arming the lockdown refuses what would mismatch, and files it; disarming it lets it mismatch again. What is
   * permitted, or goes on with a stream, is the same either way.
   */
  lemma LockdownDirection(
    s: State, off: bool, anonymize: Anonymizer, t0: nat, t1: nat, t2: nat, name: string, pid: nat,
    observed: Option<string>, offset: Usize)
    requires name in s.secrets
    ensures
      var v := Handled(s, LockDown(off), t0, t1, t2);
      var o := AttemptOutcome(v, name, pid, observed, offset);
      && Answer(s, LockDown(off), anonymize, t0, t1, t2).Done? && v.(lockdown := s.lockdown) == s
      && (off ==> !o.DeniedLocked?) && (!off ==> !o.HashMismatch?)
      && (o.Granted? <==> AttemptOutcome(s, name, pid, observed, offset).Granted?)
  {
    if s.secrets[name].reader == Some(pid) {
      StreamAdmission(s.secrets[name], pid, observed, offset, off);
    } else {
      FirstReadAdmission(s.secrets[name], pid, observed, offset, !off);
      FirstReadAdmission(s.secrets[name], pid, observed, offset, s.lockdown);
    }
  }
}
