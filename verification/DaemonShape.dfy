/** What holds in every reachable world of the policy daemon whatever the secrets are: locks, references, snapshots. */
module DaemonShape {
  import opened Text
  import opened Records
  import opened PolicyStore
  import opened Daemon

  /** Only the holder is inside the persist lock, and it is. */
  ghost predicate LockKept(w: World) {
    && (forall t: nat :: HasLock(At(w, t)) ==> w.holder == Some(t))
    && (w.holder.Some? ==> HasLock(At(w, w.holder.value)))
  }

  /** Every current record exists and generations are never reused. */
  ghost predicate RefsKept(mem: Memory) {
    && (forall name :: name in mem.dir ==> mem.Has(name) && mem.dir[name] < mem.nextGen)
    && (forall ref :: ref in mem.heap ==> ref.1 < mem.nextGen)
  }

  /** Where a thread stands fits the memory: references point somewhere, snapshots have visited what is not to do. */
  ghost predicate Fits(mem: Memory, pc: PC) {
    match pc
    case Holding(ask, _, gen) => (ask.name, gen) in mem.heap
    case Walking(_, _, todo, snap, flag) =>
      todo + snap.Keys == mem.dir.Keys && todo !! snap.Keys && flag == mem.lockdown
    case Clearing(todo, _) => todo <= mem.dir.Keys && todo != {}
    case Marked(_, name, _, _, _) => name in mem.dir
    case _ => true
  }

  ghost predicate Shape(w: World) {
    && LockKept(w)
    && RefsKept(w.mem)
    && (forall t: nat :: Fits(w.mem, At(w, t)))
  }

  lemma BootRefs(disk: Disk, sizes: HostSizes)
    ensures RefsKept(BootMemory(disk, sizes))
    ensures forall n :: n in disk.secrets ==>
      BootMemory(disk, sizes).Get(n) == Revive(disk.secrets[n], SizeOf(sizes, disk.secrets[n].host))
  {
  }

  lemma BootShape(file: StoreFile, sizes: HostSizes, timeout: nat, now: nat)
    ensures Shape(Boot(file, sizes, timeout, now))
  {
    BootRefs(file.disk, sizes);
    ShapeAtRest(Boot(file, sizes, timeout, now));
  }

  lemma ShapeAtRest(w: World)
    requires w.threads == map[] && w.holder.None? && RefsKept(w.mem)
    ensures Shape(w)
  {
    assert forall t: nat :: At(w, t) == Idle;
  }

  /** A move changes the lock only by taking it when free and giving it back. */
  lemma TurnLock(w: World, t: nat, pc: PC, move: Move)
    requires Ready(w, pc, move)
    ensures
      var turn := TurnOf(w, t, pc, move);
      && (HasLock(pc) ==> turn.holder == if HasLock(turn.pc) then w.holder else None)
      && (!HasLock(pc) && HasLock(turn.pc) ==> w.holder.None? && turn.holder == Some(t))
      && (!HasLock(pc) && !HasLock(turn.pc) ==> turn.holder == w.holder)
  {
  }

  /** Orders that change memory start a fresh snapshot, or none; the disk and what was answered stay. */
  lemma ActFacts(w: World, order: Order)
    requires Ready(w, Inside(order), Act)
    ensures
      var turn := DoAct(w, order);
      && turn.disk == w.disk && turn.past.answered == w.past.answered && turn.past.served == w.past.served
      && turn.past.bare == w.past.bare && w.mem.heap.Keys <= turn.mem.heap.Keys
      && (turn.pc.Walking? ==> turn.pc.snap == map[] && !turn.pc.errand.ReadErrand? && !turn.pc.errand.ForeverErrand?)
      && (turn.pc.Idle? || turn.pc.Walking? || turn.pc.Clearing? || turn.pc.Marked?)
  {
  }

  /** Where snapshots come from, and where they go. */
  lemma TurnSnaps(w: World, t: nat, pc: PC, move: Move, n: string)
    requires Ready(w, pc, move)
    ensures
      var turn := TurnOf(w, t, pc, move);
      && (turn.disk == w.disk || (move.Land? && turn.disk.secrets == pc.snap))
      && (turn.pc.Walking? && n in turn.pc.snap ==>
            || (pc.Walking? && n in pc.snap && turn.pc.snap[n] == pc.snap[n])
            || (w.mem.Has(n) && turn.pc.snap[n] == Project(w.mem.Get(n))))
      && (turn.pc.Landed? ==> move.Land? && pc.Walking? && turn.pc.errand == pc.errand)
      && (turn.pc.Walking? && pc.Walking? ==> turn.pc.errand == pc.errand && turn.mem == w.mem)
  {
    if move.Act? {
      ActFacts(w, pc.order);
    }
  }

  /** Outside the lock nobody changes the directory, the lockdown flag or the disk; references never stop pointing. */
  lemma TurnMemory(w: World, t: nat, pc: PC, move: Move)
    requires Ready(w, pc, move)
    ensures
      var turn := TurnOf(w, t, pc, move);
      && (!HasLock(pc) ==> turn.mem.dir == w.mem.dir && turn.mem.lockdown == w.mem.lockdown && turn.disk == w.disk)
      && w.mem.heap.Keys <= turn.mem.heap.Keys
  {
    if move.Act? {
      ActFacts(w, pc.order);
    }
  }

  lemma SetRefs(mem: Memory, name: string, rec: Rec)
    requires RefsKept(mem) && mem.Has(name)
    ensures RefsKept(mem.Set(name, rec)) && mem.Set(name, rec).dir == mem.dir
    ensures mem.Set(name, rec).Get(name) == rec
    ensures forall n :: n in mem.dir && n != name ==> mem.Set(name, rec).Get(n) == mem.Get(n)
  {
  }

  lemma CreateRefs(mem: Memory, name: string, rec: Rec)
    requires RefsKept(mem)
    ensures RefsKept(mem.Create(name, rec))
    ensures mem.Create(name, rec).Get(name) == rec
    ensures forall n :: n in mem.dir && n != name ==> mem.Create(name, rec).Get(n) == mem.Get(n)
  {
  }

  lemma AttemptRefs(w: World, pc: PC)
    requires Ready(w, pc, Attempt) && RefsKept(w.mem)
    ensures
      var turn := DoAttempt(w, pc);
      && RefsKept(turn.mem) && turn.mem.heap.Keys == w.mem.heap.Keys
      && turn.mem.dir == w.mem.dir && turn.mem.lockdown == w.mem.lockdown
  {
  }

  lemma AddShape(w: World, name: string, host: string, size: Usize, hash: string, mode: nat)
    requires Ready(w, Inside(AddOrder(name, host, size, hash, mode)), Act) && RefsKept(w.mem)
    ensures
      var turn := DoAct(w, AddOrder(name, host, size, hash, mode));
      RefsKept(turn.mem) && Fits(turn.mem, turn.pc)
  {
    if name in w.mem.dir {
      SetRefs(w.mem, name, ReAdded(w.mem.Get(name), host, size, hash, mode));
    } else {
      CreateRefs(w.mem, name, Created(host, size, hash, mode));
    }
  }

  lemma ForeverShape(w: World, id: nat)
    requires Ready(w, Inside(ForeverOrder(id)), Act) && RefsKept(w.mem)
    ensures RefsKept(DoForever(w, id).mem) && Fits(DoForever(w, id).mem, DoForever(w, id).pc)
  {
  }

  lemma ActShape(w: World, order: Order)
    requires Ready(w, Inside(order), Act) && RefsKept(w.mem)
    ensures RefsKept(DoAct(w, order).mem) && Fits(DoAct(w, order).mem, DoAct(w, order).pc)
  {
    match order
    case AddOrder(name, host, size, hash, mode) => AddShape(w, name, host, size, hash, mode);
    case ForeverOrder(id) => ForeverShape(w, id);
    case _ =>
  }

  lemma ClearShape(w: World, pc: PC, name: string)
    requires Ready(w, pc, ClearNext(name)) && RefsKept(w.mem) && Fits(w.mem, pc)
    ensures RefsKept(DoClear(w, pc, name).mem) && Fits(DoClear(w, pc, name).mem, DoClear(w, pc, name).pc)
  {
    SetRefs(w.mem, name, Reset(w.mem.Get(name)));
  }

  /** The other moves leave memory alone. */
  lemma TurnSame(w: World, t: nat, pc: PC, move: Move)
    requires Ready(w, pc, move) && !move.Attempt? && !move.Act? && !move.ClearNext?
    ensures TurnOf(w, t, pc, move).mem == w.mem
  {
  }

  lemma QuietShape(w: World, t: nat, pc: PC, move: Move)
    requires Ready(w, pc, move) && RefsKept(w.mem) && Fits(w.mem, pc)
    requires !move.Attempt? && !move.Act? && !move.ClearNext?
    ensures Fits(w.mem, TurnOf(w, t, pc, move).pc)
  {
  }

  lemma TurnShape(w: World, t: nat, pc: PC, move: Move)
    requires Ready(w, pc, move) && RefsKept(w.mem) && Fits(w.mem, pc)
    ensures
      var turn := TurnOf(w, t, pc, move);
      RefsKept(turn.mem) && Fits(turn.mem, turn.pc)
  {
    if move.Attempt? {
      AttemptRefs(w, pc);
    } else if move.Act? {
      ActShape(w, pc.order);
    } else if move.ClearNext? {
      ClearShape(w, pc, move.name);
    } else {
      TurnSame(w, t, pc, move);
      QuietShape(w, t, pc, move);
    }
  }

  lemma SoleHolder(w: World, t: nat, u: nat)
    requires Shape(w)
    ensures HasLock(At(w, t)) && HasLock(At(w, u)) ==> t == u
  {
  }

  lemma OtherStands(w: World, t: nat, turn: Turn, u: nat)
    ensures At(Moved(w, t, turn), u) == if u == t then turn.pc else At(w, u)
  {
  }

  lemma MoveShape(w: World, t: nat, move: Move)
    requires Shape(w) && Ready(w, At(w, t), move)
    ensures Shape(Moved(w, t, TurnOf(w, t, At(w, t), move)))
  {
    var pc := At(w, t);
    var turn := TurnOf(w, t, pc, move);
    var v := Moved(w, t, turn);
    TurnLock(w, t, pc, move);
    TurnMemory(w, t, pc, move);
    TurnShape(w, t, pc, move);
    forall u: nat
      ensures HasLock(At(v, u)) ==> v.holder == Some(u)
      ensures Fits(v.mem, At(v, u))
    {
      OtherStands(w, t, turn, u);
      assert Fits(w.mem, At(w, u));
    }
  }

  /** The shape survives every step, and so holds in every world a daemon can reach. */
  lemma StepShape(w: World, s: Step)
    requires Shape(w) && Enabled(w, s)
    ensures Shape(Apply(w, s))
  {
    match s
    case Thread(t, move) => MoveShape(w, t, move);
    case Observe(name, size) =>
      SetRefs(w.mem, name, w.mem.Get(name).(size := size));
      var v := Apply(w, s);
      assert forall t: nat :: Fits(w.mem, At(w, t)) ==> Fits(v.mem, At(v, t));
    case Operator(op) =>
      var v := Apply(w, s);
      assert forall t: nat :: At(v, t) == At(w, t);
    case Crash(sizes) =>
      BootShape(StoreFile(true, w.disk), sizes, w.desk.timeout, w.desk.now);
  }
}
