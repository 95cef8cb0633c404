/**
 * The step system takes the commands apart at their lock boundaries; run without interference, the parts do
 * what the commands do. `Matches` reads a world as the state the sequential methods are specified on.
 */
module DaemonRefines {
  import opened Text
  import opened Records
  import opened PolicyStore
  import opened Daemon
  import Policy

  function TicketOf(p: Policy.Pending): Ticket {
    Ticket(p.secret, p.hash, p.process, p.expires, p.granted)
  }

  ghost predicate SameSecrets(mem: Memory, s: Policy.State) {
    && s.secrets.Keys == mem.dir.Keys && s.lockdown == mem.lockdown
    && (forall n :: n in mem.dir ==> mem.Has(n) && s.secrets[n] == mem.Get(n))
  }

  ghost predicate SamePendings(d: Desk, s: Policy.State) {
    && s.pending.Keys == d.pending.Keys && s.nextId == d.nextId && s.timeout == d.timeout
    && (forall id :: id in d.pending ==> d.pending[id] == TicketOf(s.pending[id]))
  }

  ghost predicate Matches(mem: Memory, d: Desk, s: Policy.State) {
    SameSecrets(mem, s) && SamePendings(d, s)
  }

  // ── records ────────────────────────────────────────────────────

  lemma SetMatches(mem: Memory, s: Policy.State, name: string, rec: Rec)
    requires SameSecrets(mem, s) && name in mem.dir
    ensures SameSecrets(mem.Set(name, rec), s.(secrets := s.secrets[name := rec]))
  {
  }

  lemma CreateMatches(mem: Memory, s: Policy.State, name: string, rec: Rec)
    requires SameSecrets(mem, s) && name !in mem.dir
    ensures SameSecrets(mem.Create(name, rec), s.(secrets := s.secrets[name := rec]))
  {
  }

  /**
   * The part of a read under the record's lock, on a record that is still the current one, is the sequential
   * read: same decision, same record, same pending.
   */
  lemma AttemptRefines(w: World, pc: PC, s: Policy.State)
    requires Ready(w, pc, Attempt) && Matches(w.mem, w.desk, s)
    requires pc.ask.name in w.mem.dir && w.mem.dir[pc.ask.name] == pc.gen
    ensures
      var ask := pc.ask;
      var observed := if pc.probe then None else ask.hash;
      var turn := TurnOf(w, 0, pc, Attempt);
      && Matches(turn.mem, turn.desk, Policy.Attempt(s, w.desk.now, ask.name, ask.pid, observed, ask.offset, ask.size))
      && (turn.pc.Owing? <==> Policy.AttemptOutcome(s, ask.name, ask.pid, observed, ask.offset).Granted?)
      && (turn.pc.Fetching? <==>
          !pc.probe && !Policy.AttemptOutcome(s, ask.name, ask.pid, observed, ask.offset).Granted? &&
          !Policy.AttemptOutcome(s, ask.name, ask.pid, observed, ask.offset).DeniedLocked?)
  {
    var ask := pc.ask;
    var observed := if pc.probe then None else ask.hash;
    var rec := w.mem.Get(ask.name);
    var after := AfterAttempt(rec, ask.pid, observed, ask.offset, ask.size, w.mem.lockdown);
    SetMatches(w.mem, s, ask.name, after);
    if Decide(rec, ask.pid, observed, ask.offset, w.mem.lockdown).DeniedLocked? {
      MintRefines(w.desk, s, Policy.Pending(ask.name, None, ask.pid, observed, None, REASON_LOCKDOWN, 0, false));
    }
  }

  /** What a command does to the state, for the commands that change it in one piece under the persist lock. */
  function Ordered(s: Policy.State, order: Order): Policy.State
    requires !order.ForeverOrder? && order != ResetOrder(None)
  {
    match order
    case AddOrder(name, host, size, hash, mode) => Policy.Add(s, name, host, size, hash, mode)
    case RemoveOrder(name) => Policy.Remove(s, name)
    case ResetOrder(only) => Policy.ResetOne(s, only.value)
    case RotateOrder(name, hash) => Policy.Rotate(s, name, hash)
    case LockdownOrder(on) => s.(lockdown := on)
    case TakeOrder(ask, _) => Policy.Manually(s, ask.name, ask.pid, ask.offset, ask.size)
  }

  /** Holding the persist lock, each command changes memory as the sequential one does. */
  lemma OrderRefines(w: World, order: Order, s: Policy.State)
    requires Ready(w, Inside(order), Act) && Matches(w.mem, w.desk, s)
    requires !order.ForeverOrder? && order != ResetOrder(None)
    ensures Matches(TurnOf(w, 0, Inside(order), Act).mem, TurnOf(w, 0, Inside(order), Act).desk, Ordered(s, order))
  {
    match order
    case AddOrder(name, host, size, hash, mode) =>
      if name in w.mem.dir {
        SetMatches(w.mem, s, name, ReAdded(w.mem.Get(name), host, size, hash, mode));
      } else {
        CreateMatches(w.mem, s, name, Created(host, size, hash, mode));
      }
    case RemoveOrder(name) =>
      if name !in w.mem.dir {
        assert s.secrets - {name} == s.secrets;
      }
    case ResetOrder(only) =>
      if only.value in w.mem.dir {
        SetMatches(w.mem, s, only.value, Reset(w.mem.Get(only.value)));
      }
    case RotateOrder(name, hash) =>
      if name in w.mem.dir {
        SetMatches(w.mem, s, name, Rotated(w.mem.Get(name), hash));
      }
    case LockdownOrder(on) =>
    case TakeOrder(ask, _) =>
      if ask.name in w.mem.dir {
        SetMatches(w.mem, s, ask.name, AfterManual(w.mem.Get(ask.name), ask.pid, ask.offset, ask.size));
      }
  }

  /** Resetting everything goes record by record: those still to do are as they were, the others are reset. */
  ghost predicate HalfReset(mem: Memory, s: Policy.State, todo: set<string>) {
    && todo <= mem.dir.Keys == s.secrets.Keys && s.lockdown == mem.lockdown
    && (forall n :: n in mem.dir ==>
          mem.Has(n) && mem.Get(n) == if n in todo then s.secrets[n] else Reset(s.secrets[n]))
  }

  lemma SetHalfReset(mem: Memory, s: Policy.State, todo: set<string>, name: string)
    requires HalfReset(mem, s, todo) && name in todo
    ensures HalfReset(mem.Set(name, Reset(mem.Get(name))), s, todo - {name})
  {
  }

  lemma AllReset(mem: Memory, s: Policy.State)
    requires HalfReset(mem, s, {})
    ensures SameSecrets(mem, Policy.ResetAll(s))
  {
  }

  /** Resetting everything sets out with every record still to do, or has nothing to do. */
  lemma ResetAllStarts(w: World, s: Policy.State)
    requires Ready(w, Inside(ResetOrder(None)), Act) && SameSecrets(w.mem, s)
    ensures
      var turn := TurnOf(w, 0, Inside(ResetOrder(None)), Act);
      && turn.mem == w.mem
      && if s.secrets == map[] then turn.pc.Idle? && turn.holder.None?
         else turn.pc.Clearing? && turn.holder == w.holder && turn.pc.todo == s.secrets.Keys &&
              HalfReset(turn.mem, s, turn.pc.todo)
  {
    assert w.mem.dir == map[] <==> w.mem.dir.Keys == {};
    assert s.secrets == map[] <==> s.secrets.Keys == {};
  }

  lemma ResetAllRefines(w: World, pc: PC, name: string, s: Policy.State)
    requires pc.Clearing? && Ready(w, pc, ClearNext(name)) && HalfReset(w.mem, s, pc.todo)
    ensures HalfReset(TurnOf(w, 0, pc, ClearNext(name)).mem, s, pc.todo - {name})
    ensures TurnOf(w, 0, pc, ClearNext(name)).pc.Walking? ==>
      SameSecrets(TurnOf(w, 0, pc, ClearNext(name)).mem, Policy.ResetAll(s))
  {
    SetHalfReset(w.mem, s, pc.todo, name);
    if pc.todo == {name} {
      assert pc.todo - {name} == {};
      AllReset(w.mem.Set(name, Reset(w.mem.Get(name))), s);
    }
  }

  // ── the snapshot ───────────────────────────────────────────────

  /** A snapshot under way, every visited record as it is now. */
  ghost predicate Faithful(mem: Memory, pc: PC) {
    && pc.Walking? && pc.todo !! pc.snap.Keys && pc.todo + pc.snap.Keys == mem.dir.Keys && pc.flag == mem.lockdown
    && (forall n :: n in pc.snap ==> mem.Has(n) && pc.snap[n] == Project(mem.Get(n)))
  }

  /** Undisturbed, the snapshot stays faithful, and lands as exactly the persisted part of the state. */
  lemma SnapshotRefines(w: World, pc: PC, move: Move, s: Policy.State)
    requires Faithful(w.mem, pc) && Ready(w, pc, move) && SameSecrets(w.mem, s)
    ensures move.Visit? ==> Faithful(w.mem, TurnOf(w, 0, pc, move).pc)
    ensures move.Land? ==>
      TurnOf(w, 0, pc, move).disk.lockdown == s.lockdown && TurnOf(w, 0, pc, move).disk.secrets == ProjectAll(s.secrets)
  {
    if move.Land? {
      assert pc.snap.Keys == s.secrets.Keys;
    }
  }

  /** Every command that walks starts with a faithful snapshot. */
  lemma WalkStartsFaithful(w: World, pc: PC, move: Move)
    requires Ready(w, pc, move) && !pc.Walking? && TurnOf(w, 0, pc, move).pc.Walking?
    ensures Faithful(TurnOf(w, 0, pc, move).mem, TurnOf(w, 0, pc, move).pc)
  {
  }

  // ── pendings ───────────────────────────────────────────────────

  lemma MintRefines(d: Desk, s: Policy.State, p: Policy.Pending)
    requires SamePendings(d, s)
    ensures SamePendings(d.Mint(p.secret, p.hash, p.process), Policy.Mint(s, d.now, p))
  {
  }

  lemma GrantRefines(d: Desk, s: Policy.State, id: nat)
    requires SamePendings(d, s)
    ensures SamePendings(d.Grant(id), Policy.Grant(s, id, d.now)) && (d.Alive(id) <==> Policy.Grantable(s, id, d.now))
  {
    assert d.Alive(id) <==> Policy.Grantable(s, id, d.now);
  }

  lemma CleanupRefines(d: Desk, s: Policy.State)
    requires SamePendings(d, s)
    ensures SamePendings(AtDesk(d, Cleanup), Policy.Cleanup(s, d.now))
  {
  }

  lemma LookUpRefines(d: Desk, s: Policy.State, id: nat, hash: Option<string>, why: Option<string>)
    requires SamePendings(d, s)
    ensures SamePendings(AtDesk(d, LookUp(id, hash)), Policy.RefreshHash(s, id, hash, why))
  {
  }

  /** Grant, deny, cleanup and late lookup on the desk are the sequential operations at the desk's time. */
  lemma DeskRefines(d: Desk, s: Policy.State, op: DeskOp, why: Option<string>)
    requires SamePendings(d, s)
    ensures SamePendings(AtDesk(d, op), AtPolicy(s, op, d.now, why))
  {
    match op
    case GrantOnce(id) => GrantRefines(d, s, id);
    case DenyOnce(id) =>
    case Cleanup => CleanupRefines(d, s);
    case LookUp(id, hash) => LookUpRefines(d, s, id, hash, why);
    case Tick(later) =>
  }

  /** The sequential operation, at a time; a late lookup may also say why there is no hash. */
  function AtPolicy(s: Policy.State, op: DeskOp, now: nat, why: Option<string>): Policy.State {
    match op
    case GrantOnce(id) => Policy.Grant(s, id, now)
    case DenyOnce(id) => Policy.Deny(s, id)
    case Cleanup => Policy.Cleanup(s, now)
    case LookUp(id, hash) => Policy.RefreshHash(s, id, hash, why)
    case Tick(_) => s
  }

  /** The ask loop's three looks decide by the questions the source puts: granted, past the deadline, denied. */
  lemma LooksRefine(w: World, pc: PC, move: Move, s: Policy.State)
    requires SamePendings(w.desk, s) && Ready(w, pc, move)
    ensures move.Poll? ==> (TurnOf(w, 0, pc, move).pc.Won? <==> Policy.IsGranted(s, pc.id, w.desk.now))
    ensures move.CheckDeadline? ==> (TurnOf(w, 0, pc, move).pc.Idle? <==> w.desk.now > pc.deadline)
    ensures move.CheckDenied? ==> (TurnOf(w, 0, pc, move).pc.Idle? <==> Policy.IsDenied(s, pc.id, w.desk.now))
    ensures move.Collect? ==> SamePendings(TurnOf(w, 0, pc, move).desk, Policy.Deny(s, pc.id))
  {
  }

  // ── the path of an ask ─────────────────────────────────────────

  /**
   * A secret that is not there ends the ask. The first attempt on the current record ends it too when the lockdown
   * refuses it, goes on to its answer when granted, and to the second attempt otherwise.
   */
  lemma FirstAttemptLeads(w: World, pc: PC, move: Move, s: Policy.State)
    requires Ready(w, pc, move) && (move.Fetch? || move.Attempt?) && !pc.probe && SameSecrets(w.mem, s)
    requires move.Attempt? ==> pc.ask.name in w.mem.dir && w.mem.dir[pc.ask.name] == pc.gen
    ensures
      var ask, next := pc.ask, TurnOf(w, 0, pc, move).pc;
      var o := Policy.AttemptOutcome(s, ask.name, ask.pid, ask.hash, ask.offset);
      && (move.Fetch? ==> if o.NotFound? then next.Idle? else next == Holding(ask, false, w.mem.dir[ask.name]))
      && (move.Attempt? ==>
            && !o.NotFound?
            && (o.Granted? ==> next.Owing? && next.ask == ask && !next.probe)
            && (o.DeniedLocked? ==> next.Idle?)
            && (o.AlreadyAccessed? || o.HashMismatch? ==> next == Fetching(ask, true)))
  {
  }

  /** The second attempt always ends in a pending being filed, whatever it comes to and even if the secret is gone. */
  lemma ProbeLeadsToFiling(w: World, t: nat, pc: PC, move: Move)
    requires Ready(w, pc, move)
    requires
      || ((move.Fetch? || move.Attempt? || (move.Acquire? && pc.Owing?)) && pc.probe)
      || (move.Finish? && pc.errand.ReadErrand? && pc.errand.probe)
    ensures
      var ask := if move.Finish? then pc.errand.ask else pc.ask;
      var next := TurnOf(w, t, pc, move).pc;
      || next == Filing(ask)
      || (move.Fetch? && next.Holding? && next.ask == ask && next.probe)
      || (move.Attempt? && next.Owing? && next.ask == ask && next.probe)
      || (move.Acquire? && next.Walking? && next.errand == ReadErrand(ask, true, pc.release))
  {
  }

  /**
   * Filing makes a pending of the ask, with its secret, process and hash, under the next id, and the ask waits for that
   * one; with no time to wait it ends the ask.
   */
  lemma FileRefines(w: World, ask: Ask, s: Policy.State, why: Option<string>, reason: string)
    requires SamePendings(w.desk, s)
    ensures
      var turn := TurnOf(w, 0, Filing(ask), File);
      var p := Policy.Pending(ask.name, ask.process, ask.pid, ask.hash, why, reason, 0, false);
      if s.timeout == 0 then turn.pc.Idle? && turn.desk == w.desk
      else turn.pc == Filed(ask, s.nextId) && SamePendings(turn.desk, Policy.Mint(s, w.desk.now, p))
  {
    MintRefines(w.desk, s, Policy.Pending(ask.name, ask.process, ask.pid, ask.hash, why, reason, 0, false));
  }

  /** Then the ask waits until the timeout is over, counted from when it starts to wait. */
  lemma WaitRefines(w: World, ask: Ask, id: nat)
    ensures TurnOf(w, 0, Filed(ask, id), SetDeadline).pc == Polling(ask, id, w.desk.now + w.desk.timeout)
  {
  }

  // ── grant-forever ──────────────────────────────────────────────

  /** The first part decides, and changes the record only if it will try to go on. */
  lemma MarkRefines(w: World, id: nat, s: Policy.State)
    requires Matches(w.mem, w.desk, s) && Ready(w, Inside(ForeverOrder(id)), Act)
    ensures
      var marked := TurnOf(w, 0, Inside(ForeverOrder(id)), Act);
      if Policy.ForeverDecision(s, id, w.desk.now).Whitelisting? then
        && marked.pc.Marked? && marked.pc.id == id && marked.pc.seen == None && marked.desk == w.desk
        && Matches(marked.mem, w.desk, Policy.Whitelist(s, id))
      else !marked.pc.Marked? && marked.mem == w.mem && marked.desk == w.desk
  {
    if id in w.desk.pending && w.desk.pending[id].hash.Some? && w.desk.pending[id].secret in w.mem.dir {
      var p := w.desk.pending[id];
      SetMatches(w.mem, s, p.secret, Whitelisted(w.mem.Get(p.secret), p.hash.value, p.process));
    }
  }

  /** The last part grants what is still live, accepts what was already remembered, and gives up on the rest. */
  lemma SettleRefines(w: World, pc: PC, s: Policy.State)
    requires Matches(w.mem, w.desk, s) && Ready(w, pc, Settle)
    ensures
      var settled := TurnOf(w, 0, pc, Settle);
      && Matches(settled.mem, settled.desk, Policy.Grant(s, pc.id, w.desk.now))
      && (settled.pc.Walking? <==> Policy.Grantable(s, pc.id, w.desk.now) || pc.seen.value)
  {
    GrantRefines(w.desk, s, pc.id);
  }

  /** The clock moves on and nothing else happens. */
  function Later(w: World, t: nat): World {
    w.(desk := AtDesk(w.desk, Tick(t)))
  }

  /**
   * Grant-forever's three parts, run one after the other at the three times it reads the clock, are the
   * sequential grant-forever, down to the refusal that comes after the record has changed.
   */
  lemma ForeverRefines(w: World, id: nat, s: Policy.State, t1: nat, t2: nat)
    requires Matches(w.mem, w.desk, s) && Ready(w, Inside(ForeverOrder(id)), Act)
    requires w.desk.now <= t1 <= t2
    requires Policy.ForeverDecision(s, id, w.desk.now).Whitelisting?
    ensures
      var marked := TurnOf(w, 0, Inside(ForeverOrder(id)), Act);
      var v := Later(w.(mem := marked.mem), t1);
      var looked := TurnOf(v, 0, marked.pc, CheckExpiry);
      var settled := TurnOf(Later(v, t2), 0, looked.pc, Settle);
      && Matches(settled.mem, settled.desk, Policy.Forever(s, id, w.desk.now, t1, t2))
      && (settled.pc.Walking? <==> Policy.ForeverOutcome(s, id, w.desk.now, t1, t2).Whitelisting?)
  {
    MarkRefines(w, id, s);
    var marked := TurnOf(w, 0, Inside(ForeverOrder(id)), Act);
    var v := Later(w.(mem := marked.mem), t1);
    var looked := TurnOf(v, 0, marked.pc, CheckExpiry);
    SettleRefines(Later(v, t2), looked.pc, Policy.Whitelist(s, id));
    ForeverBySettling(s, id, w.desk.now, t1, t2);
    assert looked.pc.seen == Some(s.pending[id].expires <= t1);
  }

  lemma ForeverBySettling(s: Policy.State, id: nat, t0: nat, t1: nat, t2: nat)
    requires Policy.ForeverDecision(s, id, t0).Whitelisting? && t0 <= t1 <= t2
    ensures
      var marked := Policy.Whitelist(s, id);
      && Policy.Forever(s, id, t0, t1, t2) == Policy.Grant(marked, id, t2)
      && (Policy.ForeverOutcome(s, id, t0, t1, t2).Whitelisting? <==>
          Policy.Grantable(marked, id, t2) || s.pending[id].expires <= t1)
  {
  }
}
