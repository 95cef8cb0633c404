/** No stale snapshot lands last: the disk lags behind memory only while somebody owes a write over the difference. */
module DaemonDurability {
  import opened Text
  import opened Records
  import opened PolicyStore
  import opened Daemon
  import opened DaemonShape

  // ── who owes what ──────────────────────────────────────────────

  /** Disk and memory say the same of `n`: both nothing, or the same stored part. */
  predicate Agrees(mem: Memory, disk: Disk, n: string) {
    && (n in disk.secrets <==> n in mem.dir)
    && (n in disk.secrets && mem.Has(n) ==> disk.secrets[n] == Project(mem.Get(n)))
  }

  /** A read that changed `n` and has not yet got the persist lock. */
  predicate Owes(pc: PC, n: string) {
    pc.Owing? && pc.ask.name == n
  }

  /** The lock holder changed `n` and has not yet replaced the file. */
  predicate Dirties(pc: PC, n: string) {
    match pc
    case Walking(_, dirty, _, _, _) => n in dirty
    case Clearing(_, dirty) => n in dirty
    case Marked(_, name, _, _, _) => n == name
    case _ => false
  }

  ghost predicate ReaderOwes(w: World, n: string) {
    exists t: nat :: Owes(At(w, t), n)
  }

  predicate HolderOwes(w: World, n: string) {
    w.holder.Some? && Dirties(At(w, w.holder.value), n)
  }

  // ── what nobody owes leaves a mark that only a write removes ───

  function Named(hashes: seq<Permitted>): nat {
    if hashes == [] then 0 else (if hashes[0].who.Some? then 1 else 0) + Named(hashes[1..])
  }

  /** Grows with every change grant-forever can make. */
  function Weight(s: Stored): nat {
    |s.hashes| + Named(s.hashes) + if s.unlimited then 1 else 0
  }

  /** Memory has what the disk has not: the secret itself, or what grant-forever gave it. */
  predicate Below(mem: Memory, disk: Disk, n: string) {
    && n in mem.dir && mem.Has(n)
    && (n in disk.secrets ==> Weight(disk.secrets[n]) < Weight(Project(mem.Get(n))))
  }

  lemma {:induction false} NamedAppend(hashes: seq<Permitted>, p: Permitted)
    ensures Named(hashes + [p]) == Named(hashes) + if p.who.Some? then 1 else 0
  {
    if hashes != [] {
      assert (hashes + [p])[1..] == hashes[1..] + [p];
      NamedAppend(hashes[1..], p);
    }
  }

  lemma {:induction false} AttributionNames(hashes: seq<Permitted>, hash: string, who: Option<string>)
    ensures Named(Attributed(hashes, hash, who)) >= Named(hashes)
    ensures Attributed(hashes, hash, who) != hashes ==> Named(Attributed(hashes, hash, who)) > Named(hashes)
  {
    if hashes != [] {
      var r := Attributed(hashes, hash, who);
      assert hashes == [hashes[0]] + hashes[1..];
      if hashes[0].hash == hash {
        assert r[1..] == hashes[1..];
      } else {
        AttributionNames(hashes[1..], hash, who);
        assert r[1..] == Attributed(hashes[1..], hash, who);
      }
    }
  }

  lemma WhitelistingGrows(rec: Rec, hash: string, who: Option<string>)
    ensures
      var after := Whitelisted(rec, hash, who);
      if Project(after) == Project(rec) then true else Weight(Project(rec)) < Weight(Project(after))
  {
    if Lists(rec.hashes, hash) {
      AttributionNames(rec.hashes, hash, who);
    } else {
      NamedAppend(rec.hashes, Permitted(hash, who));
    }
  }

  // ── the invariant ──────────────────────────────────────────────

  /** A difference on `n` is owed by somebody, or is what a failed grant-forever or an unsalted store left. */
  ghost predicate Covered(w: World, n: string) {
    Agrees(w.mem, w.disk, n) || ReaderOwes(w, n) || HolderOwes(w, n) || n in w.past.lost
  }

  /** What those left is a difference for as long as nobody owes a write over it. */
  ghost predicate Marks(w: World, n: string) {
    n in w.past.lost ==> ReaderOwes(w, n) || HolderOwes(w, n) || Below(w.mem, w.disk, n)
  }

  /** What the holder has seen, or done, stays true of every record no reader has changed since. */
  ghost predicate Watched(w: World, pc: PC, n: string) {
    match pc
    case Walking(_, _, _, snap, _) =>
      n in snap ==> ReaderOwes(w, n) || (w.mem.Has(n) && snap[n] == Project(w.mem.Get(n)))
    case Marked(_, name, _, changed, _) =>
      n == name ==>
        || ReaderOwes(w, n)
        || (if changed || n in w.past.lost then Below(w.mem, w.disk, n) else Agrees(w.mem, w.disk, n))
    case _ => true
  }

  ghost predicate Accounted(w: World, n: string) {
    && Covered(w, n)
    && Marks(w, n)
    && (w.holder.Some? ==> Watched(w, At(w, w.holder.value), n))
  }

  ghost predicate Durable(w: World) {
    && (forall n :: Accounted(w, n))
    && FlagKept(w)
  }

  // ── what a move does to one secret ─────────────────────────────

  /** Nothing about `n` changes in memory. */
  predicate Same(mem: Memory, next: Memory, n: string) {
    && (n in next.dir <==> n in mem.dir)
    && (mem.Has(n) ==> next.Has(n) && Project(next.Get(n)) == Project(mem.Get(n)))
  }

  lemma SameKeeps(mem: Memory, next: Memory, disk: Disk, n: string)
    requires RefsKept(mem) && Same(mem, next, n)
    ensures Agrees(mem, disk, n) ==> Agrees(next, disk, n)
    ensures Below(mem, disk, n) ==> Below(next, disk, n)
  {
  }

  lemma AttemptTouches(w: World, pc: PC, n: string)
    requires Ready(w, pc, Attempt) && RefsKept(w.mem)
    ensures
      var turn := DoAttempt(w, pc);
      Same(w.mem, turn.mem, n) || Owes(turn.pc, n)
  {
  }

  lemma SetTouches(mem: Memory, name: string, rec: Rec, n: string)
    requires RefsKept(mem) && mem.Has(name)
    ensures Same(mem, mem.Set(name, rec), n) || n == name
  {
  }

  lemma AddTouches(w: World, name: string, host: string, size: Usize, hash: string, mode: nat, n: string)
    requires Ready(w, Inside(AddOrder(name, host, size, hash, mode)), Act) && RefsKept(w.mem)
    ensures
      var turn := DoAct(w, AddOrder(name, host, size, hash, mode));
      Same(w.mem, turn.mem, n) || Dirties(turn.pc, n)
  {
    if name in w.mem.dir {
      SetTouches(w.mem, name, ReAdded(w.mem.Get(name), host, size, hash, mode), n);
    } else {
      CreateRefs(w.mem, name, Created(host, size, hash, mode));
    }
  }

  lemma ForeverTouches(w: World, id: nat, n: string)
    requires Ready(w, Inside(ForeverOrder(id)), Act) && RefsKept(w.mem)
    ensures Same(w.mem, DoForever(w, id).mem, n) || Dirties(DoForever(w, id).pc, n)
  {
  }

  lemma ActTouches(w: World, order: Order, n: string)
    requires Ready(w, Inside(order), Act) && RefsKept(w.mem)
    ensures
      var turn := DoAct(w, order);
      Same(w.mem, turn.mem, n) || Dirties(turn.pc, n)
  {
    match order
    case AddOrder(name, host, size, hash, mode) => AddTouches(w, name, host, size, hash, mode, n);
    case ForeverOrder(id) => ForeverTouches(w, id, n);
    case _ =>
  }

  lemma ClearTouches(w: World, pc: PC, name: string, n: string)
    requires Ready(w, pc, ClearNext(name)) && RefsKept(w.mem)
    ensures
      var turn := DoClear(w, pc, name);
      Same(w.mem, turn.mem, n) || Dirties(turn.pc, n)
  {
    SetTouches(w.mem, name, Reset(w.mem.Get(name)), n);
  }

  /** A move leaves `n` alone, or the mover owes a write over it. */
  lemma TurnTouches(w: World, t: nat, pc: PC, move: Move, n: string)
    requires Ready(w, pc, move) && RefsKept(w.mem)
    ensures
      var turn := TurnOf(w, t, pc, move);
      Same(w.mem, turn.mem, n) || Owes(turn.pc, n) || Dirties(turn.pc, n)
  {
    if move.Attempt? {
      AttemptTouches(w, pc, n);
    } else if move.Act? {
      ActTouches(w, pc.order, n);
    } else if move.ClearNext? {
      ClearTouches(w, pc, move.name, n);
    } else {
      TurnSame(w, t, pc, move);
    }
  }

  /** Debts are not dropped: only landing a snapshot, or grant-forever giving up, ends one. */
  lemma TurnKeepsDebts(w: World, t: nat, pc: PC, move: Move, n: string)
    requires Ready(w, pc, move)
    ensures
      var turn := TurnOf(w, t, pc, move);
      && (Owes(pc, n) ==> Dirties(turn.pc, n) && turn.holder == Some(t))
      && (Dirties(pc, n) ==> Dirties(turn.pc, n) || move.Land? || (move.Settle? && turn.pc.Idle?))
  {
  }

  lemma OwedElsewhere(w: World, t: nat, turn: Turn, n: string)
    ensures ReaderOwes(w, n) ==> ReaderOwes(Moved(w, t, turn), n) || Owes(At(w, t), n)
    ensures Owes(turn.pc, n) ==> ReaderOwes(Moved(w, t, turn), n)
  {
    var v := Moved(w, t, turn);
    OtherStands(w, t, turn, t);
    if u: nat :| Owes(At(w, u), n) && u != t {
      OtherStands(w, t, turn, u);
      assert Owes(At(v, u), n);
    }
    if Owes(turn.pc, n) {
      assert Owes(At(v, t), n);
    }
  }

  // ── every step keeps the accounts ──────────────────────────────

  /** A move made outside the lock, other than taking it. */
  lemma OutsideAccounted(w: World, t: nat, move: Move, n: string)
    requires Shape(w) && Accounted(w, n) && Ready(w, At(w, t), move)
    requires !HasLock(At(w, t)) && !move.Acquire?
    ensures Accounted(Moved(w, t, TurnOf(w, t, At(w, t), move)), n)
  {
    var pc := At(w, t);
    var turn := TurnOf(w, t, pc, move);
    var v := Moved(w, t, turn);
    TurnMemory(w, t, pc, move);
    TurnTouches(w, t, pc, move, n);
    TurnKeepsDebts(w, t, pc, move, n);
    OwedElsewhere(w, t, turn, n);
    assert turn.holder == w.holder && turn.disk == w.disk && turn.past.lost == w.past.lost && !HasLock(turn.pc);
    if w.holder.Some? {
      OtherStands(w, t, turn, w.holder.value);
    }
    if !Owes(turn.pc, n) {
      SameKeeps(w.mem, v.mem, w.disk, n);
    }
  }

  /** Taking the lock turns a reader's debt into the holder's. */
  lemma AcquireAccounted(w: World, t: nat, n: string)
    requires Shape(w) && Accounted(w, n) && Ready(w, At(w, t), Acquire)
    ensures Accounted(Moved(w, t, TurnOf(w, t, At(w, t), Acquire)), n)
  {
    var turn := TurnOf(w, t, At(w, t), Acquire);
    OwedElsewhere(w, t, turn, n);
    OtherStands(w, t, turn, t);
  }

  /** Landing a snapshot settles every debt but those of reads that came after its visit, and wipes every mark. */
  lemma LandAccounted(w: World, t: nat, n: string)
    requires Shape(w) && Accounted(w, n) && Ready(w, At(w, t), Land)
    ensures Accounted(Moved(w, t, TurnOf(w, t, At(w, t), Land)), n)
  {
    var pc := At(w, t);
    var turn := TurnOf(w, t, pc, Land);
    assert w.holder == Some(t);
    assert Fits(w.mem, pc) && Watched(w, pc, n);
    OwedElsewhere(w, t, turn, n);
    OtherStands(w, t, turn, t);
  }

  lemma SettleTurn(w: World, pc: PC)
    requires Ready(w, pc, Settle)
    ensures
      var turn := DoSettle(w, pc);
      && turn.mem == w.mem && turn.disk == w.disk
      && if turn.pc.Walking?
         then turn.holder == w.holder && turn.past == w.past && turn.pc.dirty == {pc.name} && turn.pc.snap == map[]
         else
           && turn.pc.Idle? && turn.holder.None?
           && turn.past.lost == if pc.changed then w.past.lost + {pc.name} else w.past.lost
  {
  }

  lemma SettleAccounted(w: World, t: nat, n: string)
    requires Shape(w) && Accounted(w, n) && Ready(w, At(w, t), Settle)
    ensures Accounted(Moved(w, t, DoSettle(w, At(w, t))), n)
  {
    var pc := At(w, t);
    var turn := DoSettle(w, pc);
    assert w.holder == Some(t) && Watched(w, pc, n);
    SettleTurn(w, pc);
    OwedElsewhere(w, t, turn, n);
    OtherStands(w, t, turn, t);
  }

  /** The record grant-forever changed has what the disk has not, or was not changed at all. */
  lemma MarkedIsAhead(w: World, id: nat)
    requires RefsKept(w.mem) && Ready(w, Inside(ForeverOrder(id)), Act) && DoForever(w, id).pc.Marked?
    ensures
      var turn := DoForever(w, id);
      var n := turn.pc.name;
      && n in w.mem.dir && n in turn.mem.dir
      && (Agrees(w.mem, w.disk, n) ==>
           if turn.pc.changed then Below(turn.mem, w.disk, n) else Agrees(turn.mem, w.disk, n))
      && (Below(w.mem, w.disk, n) ==> Below(turn.mem, w.disk, n))
  {
    var p := w.desk.pending[id];
    WhitelistingGrows(w.mem.Get(p.secret), p.hash.value, p.process);
    SetRefs(w.mem, p.secret, Whitelisted(w.mem.Get(p.secret), p.hash.value, p.process));
  }

  lemma ForeverAccounted(w: World, t: nat, id: nat, n: string)
    requires Shape(w) && Accounted(w, n) && At(w, t) == Inside(ForeverOrder(id)) && Ready(w, At(w, t), Act)
    ensures Accounted(Moved(w, t, TurnOf(w, t, At(w, t), Act)), n)
  {
    var turn := DoForever(w, id);
    assert w.holder == Some(t);
    OwedElsewhere(w, t, turn, n);
    OtherStands(w, t, turn, t);
    if turn.pc.Marked? && turn.pc.name == n {
      MarkedIsAhead(w, id);
    } else if turn.pc.Marked? {
      ForeverTouches(w, id, n);
      SameKeeps(w.mem, turn.mem, w.disk, n);
    }
  }

  /** Moves under the lock that change records and then start to write, or go on changing. */
  predicate Changing(pc: PC, move: Move) {
    move.ClearNext? || (move.Act? && pc.Inside? && !pc.order.ForeverOrder?)
  }

  /** Moves under the lock that leave memory alone. */
  predicate Looking(move: Move) {
    move.Visit? || move.CheckExpiry? || move.Finish?
  }

  lemma ActWrites(w: World, order: Order)
    requires Ready(w, Inside(order), Act) && !order.ForeverOrder?
    ensures DoAct(w, order).past.lost == w.past.lost && !DoAct(w, order).pc.Marked?
  {
  }

  lemma TurnWrites(w: World, t: nat, pc: PC, move: Move)
    requires Ready(w, pc, move) && (Changing(pc, move) || Looking(move))
    ensures
      var turn := TurnOf(w, t, pc, move);
      && turn.disk == w.disk && turn.past.lost == w.past.lost
      && (Looking(move) ==> turn.mem == w.mem)
      && (Changing(pc, move) ==> !turn.pc.Marked? && (turn.pc.Walking? ==> turn.pc.snap == map[]))
  {
    if move.Act? {
      ActFacts(w, pc.order);
      ActWrites(w, pc.order);
    }
  }

  lemma ChangingAccounted(w: World, t: nat, move: Move, n: string)
    requires Shape(w) && Accounted(w, n) && Ready(w, At(w, t), move) && Changing(At(w, t), move)
    ensures Accounted(Moved(w, t, TurnOf(w, t, At(w, t), move)), n)
  {
    var pc := At(w, t);
    var turn := TurnOf(w, t, pc, move);
    assert w.holder == Some(t);
    TurnWrites(w, t, pc, move);
    TurnLock(w, t, pc, move);
    TurnTouches(w, t, pc, move, n);
    TurnKeepsDebts(w, t, pc, move, n);
    OwedElsewhere(w, t, turn, n);
    OtherStands(w, t, turn, t);
    if !Dirties(turn.pc, n) && !Owes(turn.pc, n) {
      SameKeeps(w.mem, turn.mem, w.disk, n);
    }
  }

  lemma LookingAccounted(w: World, t: nat, move: Move, n: string)
    requires Shape(w) && Accounted(w, n) && Ready(w, At(w, t), move) && Looking(move)
    ensures Accounted(Moved(w, t, TurnOf(w, t, At(w, t), move)), n)
  {
    var pc := At(w, t);
    var turn := TurnOf(w, t, pc, move);
    assert w.holder == Some(t) && Watched(w, pc, n);
    TurnWrites(w, t, pc, move);
    TurnKeepsDebts(w, t, pc, move, n);
    OwedElsewhere(w, t, turn, n);
    OtherStands(w, t, turn, t);
  }

  lemma MoveAccounted(w: World, t: nat, move: Move, n: string)
    requires Shape(w) && Accounted(w, n) && Ready(w, At(w, t), move)
    ensures Accounted(Moved(w, t, TurnOf(w, t, At(w, t), move)), n)
  {
    var pc := At(w, t);
    if move.Acquire? {
      AcquireAccounted(w, t, n);
    } else if !HasLock(pc) {
      OutsideAccounted(w, t, move, n);
    } else if move.Land? {
      LandAccounted(w, t, n);
    } else if move.Settle? {
      SettleAccounted(w, t, n);
    } else if move.Act? && pc.order.ForeverOrder? {
      ForeverAccounted(w, t, pc.order.id, n);
    } else if Changing(pc, move) {
      ChangingAccounted(w, t, move, n);
    } else {
      LookingAccounted(w, t, move, n);
    }
  }

  lemma BootDurable(file: StoreFile, sizes: HostSizes, timeout: nat, now: nat)
    ensures Durable(Boot(file, sizes, timeout, now))
  {
    var w := Boot(file, sizes, timeout, now);
    BootShape(file, sizes, timeout, now);
    forall n ensures Accounted(w, n) {
      if !file.salted && n in file.disk.secrets {
        assert Below(w.mem, w.disk, n) && n in w.past.lost;
      } else {
        assert Agrees(w.mem, w.disk, n);
      }
    }
  }

  /** Steps that move no thread and change no stored part. */
  lemma StillAccounted(w: World, v: World, n: string)
    requires Accounted(w, n) && RefsKept(w.mem) && Same(w.mem, v.mem, n)
    requires v.disk == w.disk && v.holder == w.holder && v.past == w.past && v.threads == w.threads
    ensures Accounted(v, n)
  {
    SameKeeps(w.mem, v.mem, w.disk, n);
    assert forall t: nat :: At(v, t) == At(w, t);
    assert ReaderOwes(w, n) <==> ReaderOwes(v, n);
  }

  /** Inside the lock, the flag in memory changes only on the way to a walk, and the file only when one lands. */
  lemma ActFlag(w: World, order: Order)
    requires Ready(w, Inside(order), Act)
    ensures DoAct(w, order).mem.lockdown == w.mem.lockdown || DoAct(w, order).pc.Walking?
  {
  }

  lemma TurnFlag(w: World, t: nat, pc: PC, move: Move)
    requires Ready(w, pc, move) && Fits(w.mem, pc)
    ensures
      var turn := TurnOf(w, t, pc, move);
      && (turn.mem.lockdown == w.mem.lockdown || turn.pc.Walking?)
      && (move.Land? ==> turn.disk.lockdown == turn.mem.lockdown && !turn.past.bare)
      && (!move.Land? ==> turn.disk == w.disk && turn.past.bare == w.past.bare)
      && (pc.Walking? && !turn.pc.Walking? ==> move.Land?)
  {
    if move.Act? {
      ActFacts(w, pc.order);
      ActFlag(w, pc.order);
    }
  }

  /** The file's lockdown flag is current unless the holder is on its way to write it, or the store is still bare. */
  ghost predicate FlagKept(w: World) {
    && (w.disk.lockdown == w.mem.lockdown || w.past.bare || (w.holder.Some? && At(w, w.holder.value).Walking?))
    && (w.past.bare ==> w.disk == Disk(false, map[]))
  }

  lemma MoveFlag(w: World, t: nat, move: Move)
    requires Shape(w) && FlagKept(w) && Ready(w, At(w, t), move)
    ensures FlagKept(Moved(w, t, TurnOf(w, t, At(w, t), move)))
  {
    var pc := At(w, t);
    var turn := TurnOf(w, t, pc, move);
    assert Fits(w.mem, pc);
    TurnLock(w, t, pc, move);
    TurnFlag(w, t, pc, move);
    OtherStands(w, t, turn, t);
    if w.holder.Some? {
      OtherStands(w, t, turn, w.holder.value);
      assert w.holder.value != t ==> !HasLock(pc);
    }
    if !HasLock(pc) {
      TurnMemory(w, t, pc, move);
    }
  }

  lemma StepDurable(w: World, s: Step)
    requires Shape(w) && Durable(w) && Enabled(w, s)
    ensures Durable(Apply(w, s))
  {
    var v := Apply(w, s);
    match s
    case Thread(t, move) =>
      forall n ensures Accounted(v, n) {
        assert Accounted(w, n);
        MoveAccounted(w, t, move, n);
      }
      MoveFlag(w, t, move);
    case Observe(name, size) =>
      forall n ensures Accounted(v, n) {
        assert Accounted(w, n);
        StillAccounted(w, v, n);
      }
    case Operator(op) =>
      forall n ensures Accounted(v, n) {
        assert Accounted(w, n);
        StillAccounted(w, v, n);
      }
    case Crash(sizes) =>
      BootDurable(StoreFile(true, w.disk), sizes, w.desk.timeout, w.desk.now);
      forall n ensures Accounted(v, n) {
        assert Accounted(Boot(StoreFile(true, w.disk), sizes, w.desk.timeout, w.desk.now), n);
        assert Agrees(v.mem, v.disk, n);
      }
  }

  lemma {:induction false} RunDurable(w: World, steps: seq<Step>)
    requires Shape(w) && Durable(w) && Legal(w, steps)
    ensures Shape(Result(w, steps)) && Durable(Result(w, steps))
    decreases |steps|
  {
    if steps != [] {
      StepShape(w, steps[0]);
      StepDurable(w, steps[0]);
      RunDurable(Apply(w, steps[0]), steps[1..]);
    }
  }

  lemma ReachableDurable(w: World)
    requires Reachable(w)
    ensures Shape(w) && Durable(w)
  {
    var file, sizes, timeout, now, steps :| Run(file, sizes, timeout, now, steps, w);
    BootShape(file, sizes, timeout, now);
    BootDurable(file, sizes, timeout, now);
    RunDurable(Boot(file, sizes, timeout, now), steps);
  }

  // ── the theorems ───────────────────────────────────────────────

  /**
   * No stale snapshot lands last. In every run, a secret on which disk and memory differ is one that a
   * reader or the lock holder has changed and still owes a write over, one that a failed grant-forever
   * changed since the last write, or one loaded from a store without a salt before the first.
   */
  lemma DifferencesAreOwed(w: World, n: string)
    requires Reachable(w)
    ensures Agrees(w.mem, w.disk, n) || ReaderOwes(w, n) || HolderOwes(w, n) || n in w.past.lost
  {
    ReachableDurable(w);
    assert Accounted(w, n);
  }

  /** No read waits for the persist lock and nobody holds it. */
  ghost predicate Quiescent(w: World) {
    && w.holder.None?
    && forall t: nat :: !At(w, t).Owing?
  }

  /**
   * When nothing is under way, disk equals memory on exactly those secrets that neither a failed grant-forever
   * nor an unsalted store has left behind since the last write, and the lockdown flag is on disk unless it was
   * armed in an unsalted store that has not been written since.
   */
  lemma QuiescentDiskIsMemory(w: World, n: string)
    requires Reachable(w) && Quiescent(w)
    ensures w.disk.lockdown == w.mem.lockdown <==> !(w.past.bare && w.mem.lockdown)
    ensures Agrees(w.mem, w.disk, n) <==> n !in w.past.lost
  {
    ReachableDurable(w);
    assert Accounted(w, n);
    assert !ReaderOwes(w, n) && !HolderOwes(w, n);
  }

  /** The next process has of `n` what this one has, but for the live stream. */
  predicate Survives(w: World, v: World, sizes: HostSizes, n: string) {
    && (n in v.mem.dir <==> n in w.mem.dir)
    && (n in w.mem.dir ==>
          && w.mem.Has(n) && v.mem.Has(n)
          && v.mem.Get(n) == Reloaded(w.mem.Get(n), SizeOf(sizes, w.mem.Get(n).host)))
  }

  /** A record comes back as it was, but for its stream, exactly when the disk has its stored part. */
  lemma RevivedIsReloaded(stored: Stored, rec: Rec, sizes: HostSizes)
    ensures
      Revive(stored, SizeOf(sizes, stored.host)) == Reloaded(rec, SizeOf(sizes, rec.host)) <==> stored == Project(rec)
  {
    if Revive(stored, SizeOf(sizes, stored.host)) == Reloaded(rec, SizeOf(sizes, rec.host)) {
      assert Project(Revive(stored, SizeOf(sizes, stored.host))) == stored;
      assert Project(Reloaded(rec, SizeOf(sizes, rec.host))) == Project(rec);
    }
  }

  lemma SurvivesByAgreeing(w: World, v: World, sizes: HostSizes, n: string)
    requires RefsKept(w.mem) && v.mem == BootMemory(w.disk, sizes)
    ensures Survives(w, v, sizes, n) <==> Agrees(w.mem, w.disk, n)
  {
    BootRefs(w.disk, sizes);
    if n in w.mem.dir && n in w.disk.secrets {
      RevivedIsReloaded(w.disk.secrets[n], w.mem.Get(n), sizes);
    }
  }

  /** A crash in that state loses nothing but live streams, on exactly those secrets. */
  lemma QuiescentCrashLosesNothing(w: World, sizes: HostSizes, n: string)
    requires Reachable(w) && Quiescent(w)
    ensures Survives(w, Apply(w, Crash(sizes)), sizes, n) <==> n !in w.past.lost
    ensures Apply(w, Crash(sizes)).mem.lockdown == w.mem.lockdown <==> !(w.past.bare && w.mem.lockdown)
  {
    ReachableDurable(w);
    QuiescentDiskIsMemory(w, n);
    SurvivesByAgreeing(w, Apply(w, Crash(sizes)), sizes, n);
  }
}
