/** Grant-forever over whole runs: once answered, it holds in memory and on disk until a rotation or a removal. */
module DaemonGrants {
  import opened Text
  import opened Records
  import opened PolicyStore
  import opened Daemon
  import opened DaemonShape

  predicate Entitles(s: Stored, h: string) {
    s.unlimited && Lists(s.hashes, h)
  }

  predicate EntitledNow(mem: Memory, n: string, h: string) {
    mem.Has(n) && Entitles(Project(mem.Get(n)), h)
  }

  predicate EntitledOnDisk(disk: Disk, n: string, h: string) {
    n in disk.secrets && Entitles(disk.secrets[n], h)
  }

  /** A grant-forever for `h` on `n` under way, its record already changed. */
  predicate Whitelisting(pc: PC, n: string, h: string) {
    match pc
    case Marked(_, name, hash, _, _) => name == n && hash == h
    case Walking(ForeverErrand(name, hash), _, _, _, _) => name == n && hash == h
    case Landed(ForeverErrand(name, hash)) => name == n && hash == h
    case _ => false
  }

  predicate SnapEntitles(pc: PC, n: string, h: string) {
    pc.Walking? && n in pc.snap ==> Entitles(pc.snap[n], h)
  }

  ghost predicate Standing(w: World, n: string, h: string) {
    && ((n, h) in w.past.forever ==>
         && EntitledNow(w.mem, n, h)
         && EntitledOnDisk(w.disk, n, h)
         && (forall t: nat :: SnapEntitles(At(w, t), n, h)))
    && (forall t: nat :: Whitelisting(At(w, t), n, h) ==>
         && EntitledNow(w.mem, n, h)
         && SnapEntitles(At(w, t), n, h)
         && (At(w, t).Landed? ==> EntitledOnDisk(w.disk, n, h)))
  }

  /** The orders that may end an entitlement on `n`. */
  predicate Ends(order: Order, n: string) {
    (order.RotateOrder? || order.RemoveOrder?) && order.name == n
  }

  lemma AttemptStanding(w: World, pc: PC, n: string, h: string)
    requires Ready(w, pc, Attempt) && RefsKept(w.mem)
    ensures EntitledNow(w.mem, n, h) ==> EntitledNow(DoAttempt(w, pc).mem, n, h)
    ensures !Whitelisting(DoAttempt(w, pc).pc, n, h) && DoAttempt(w, pc).past.forever == w.past.forever
  {
  }

  lemma ForeverStanding(w: World, id: nat, n: string, h: string)
    requires Ready(w, Inside(ForeverOrder(id)), Act) && RefsKept(w.mem)
    ensures EntitledNow(w.mem, n, h) ==> EntitledNow(DoForever(w, id).mem, n, h)
    ensures Whitelisting(DoForever(w, id).pc, n, h) ==> EntitledNow(DoForever(w, id).mem, n, h)
    ensures DoForever(w, id).past.forever == w.past.forever
  {
    var turn := DoForever(w, id);
    if turn.pc.Marked? {
      var p := w.desk.pending[id];
      WhitelistedLists(w.mem.Get(p.secret), p.hash.value, p.process, h);
      SetRefs(w.mem, p.secret, Whitelisted(w.mem.Get(p.secret), p.hash.value, p.process));
    }
  }

  lemma AddStanding(
    w: World, name: string, host: string, size: Usize, hash: string, mode: nat, n: string, h: string)
    requires Ready(w, Inside(AddOrder(name, host, size, hash, mode)), Act) && RefsKept(w.mem)
    ensures EntitledNow(w.mem, n, h) ==> EntitledNow(DoAct(w, AddOrder(name, host, size, hash, mode)).mem, n, h)
  {
    if name in w.mem.dir {
      ListsAfterAppend(w.mem.Get(name).hashes, Permitted(hash, None), h);
      SetRefs(w.mem, name, ReAdded(w.mem.Get(name), host, size, hash, mode));
    } else {
      CreateRefs(w.mem, name, Created(host, size, hash, mode));
    }
  }

  lemma ActStanding(w: World, order: Order, n: string, h: string)
    requires Ready(w, Inside(order), Act) && RefsKept(w.mem) && !order.ForeverOrder?
    ensures EntitledNow(w.mem, n, h) && !Ends(order, n) ==> EntitledNow(DoAct(w, order).mem, n, h)
    ensures (n, h) in DoAct(w, order).past.forever ==> (n, h) in w.past.forever
    ensures (n, h) in DoAct(w, order).past.forever && Ends(order, n) ==> n !in w.mem.dir
    ensures !Whitelisting(DoAct(w, order).pc, n, h)
  {
    if order.AddOrder? {
      AddStanding(w, order.name, order.host, order.size, order.hash, order.mode, n, h);
    }
  }

  lemma ClearStanding(w: World, pc: PC, name: string, n: string, h: string)
    requires Ready(w, pc, ClearNext(name)) && RefsKept(w.mem)
    ensures EntitledNow(w.mem, n, h) ==> EntitledNow(DoClear(w, pc, name).mem, n, h)
    ensures DoClear(w, pc, name).past.forever == w.past.forever && !Whitelisting(DoClear(w, pc, name).pc, n, h)
  {
    SetRefs(w.mem, name, Reset(w.mem.Get(name)));
  }

  /** What the moves that leave memory alone do to an entitlement. */
  lemma QuietStanding(w: World, t: nat, pc: PC, move: Move, n: string, h: string)
    requires Ready(w, pc, move) && !move.Attempt? && !move.Act? && !move.ClearNext?
    ensures
      var turn := TurnOf(w, t, pc, move);
      && ((n, h) in turn.past.forever ==> (n, h) in w.past.forever || (move.Finish? && Whitelisting(pc, n, h)))
      && (Whitelisting(turn.pc, n, h) ==> Whitelisting(pc, n, h))
  {
  }

  /** What a move does to an entitlement, under way or answered. */
  lemma TurnStanding(w: World, t: nat, pc: PC, move: Move, n: string, h: string)
    requires Ready(w, pc, move) && RefsKept(w.mem)
    ensures
      var turn := TurnOf(w, t, pc, move);
      && (EntitledNow(w.mem, n, h) && !(move.Act? && Ends(pc.order, n)) ==> EntitledNow(turn.mem, n, h))
      && ((n, h) in turn.past.forever ==>
            || ((n, h) in w.past.forever && !(move.Act? && Ends(pc.order, n) && n in w.mem.dir))
            || (move.Finish? && Whitelisting(pc, n, h)))
      && (Whitelisting(turn.pc, n, h) ==> Whitelisting(pc, n, h) || (move.Act? && EntitledNow(turn.mem, n, h)))
  {
    if move.Attempt? {
      AttemptStanding(w, pc, n, h);
    } else if move.Act? && pc.order.ForeverOrder? {
      ForeverStanding(w, pc.order.id, n, h);
    } else if move.Act? {
      ActStanding(w, pc.order, n, h);
    } else if move.ClearNext? {
      ClearStanding(w, pc, move.name, n, h);
    } else {
      TurnSame(w, t, pc, move);
      QuietStanding(w, t, pc, move, n, h);
    }
  }

  lemma MoveAnswered(w: World, t: nat, move: Move, n: string, h: string)
    requires Shape(w) && Ready(w, At(w, t), move) && Standing(w, n, h)
    ensures
      var v := Moved(w, t, TurnOf(w, t, At(w, t), move));
      (n, h) in v.past.forever ==>
        && EntitledNow(v.mem, n, h)
        && EntitledOnDisk(v.disk, n, h)
        && (forall u: nat :: SnapEntitles(At(v, u), n, h))
  {
    var pc := At(w, t);
    var turn := TurnOf(w, t, pc, move);
    var v := Moved(w, t, turn);
    TurnStanding(w, t, pc, move, n, h);
    TurnSnaps(w, t, pc, move, n);
    if (n, h) in v.past.forever {
      if move.Land? {
        assert SnapEntitles(pc, n, h) && Fits(w.mem, pc);
        assert n in pc.snap;
      }
      forall u: nat ensures SnapEntitles(At(v, u), n, h) {
        OtherStands(w, t, turn, u);
        assert (n, h) in w.past.forever ==> SnapEntitles(At(w, u), n, h);
        SoleHolder(w, t, u);
      }
    }
  }

  lemma MoveUnderWay(w: World, t: nat, move: Move, n: string, h: string)
    requires Shape(w) && Ready(w, At(w, t), move) && Standing(w, n, h)
    ensures
      var v := Moved(w, t, TurnOf(w, t, At(w, t), move));
      forall u: nat :: Whitelisting(At(v, u), n, h) ==>
        && EntitledNow(v.mem, n, h)
        && SnapEntitles(At(v, u), n, h)
        && (At(v, u).Landed? ==> EntitledOnDisk(v.disk, n, h))
  {
    var pc := At(w, t);
    var turn := TurnOf(w, t, pc, move);
    var v := Moved(w, t, turn);
    TurnStanding(w, t, pc, move, n, h);
    TurnSnaps(w, t, pc, move, n);
    TurnMemory(w, t, pc, move);
    forall u: nat | Whitelisting(At(v, u), n, h)
      ensures EntitledNow(v.mem, n, h)
      ensures SnapEntitles(At(v, u), n, h)
      ensures At(v, u).Landed? ==> EntitledOnDisk(v.disk, n, h)
    {
      OtherStands(w, t, turn, u);
      if u != t {
        assert Whitelisting(At(w, u), n, h) && w.holder == Some(u);
        assert !HasLock(pc);
      } else if move.Land? {
        assert Whitelisting(pc, n, h) && Fits(w.mem, pc) && n in pc.snap;
      }
    }
  }

  lemma StepStanding(w: World, s: Step, n: string, h: string)
    requires Shape(w) && Enabled(w, s) && Standing(w, n, h)
    ensures Standing(Apply(w, s), n, h)
  {
    var v := Apply(w, s);
    match s
    case Thread(t, move) =>
      MoveAnswered(w, t, move, n, h);
      MoveUnderWay(w, t, move, n, h);
    case Observe(name, size) =>
      assert forall t: nat :: At(v, t) == At(w, t);
    case Operator(op) =>
      assert forall t: nat :: At(v, t) == At(w, t);
    case Crash(sizes) =>
      assert v.mem == BootMemory(w.disk, sizes);
  }

  lemma {:induction false} RunStanding(w: World, steps: seq<Step>, n: string, h: string)
    requires Shape(w) && Standing(w, n, h) && Legal(w, steps)
    ensures Shape(Result(w, steps)) && Standing(Result(w, steps), n, h)
    decreases |steps|
  {
    if steps != [] {
      StepShape(w, steps[0]);
      StepStanding(w, steps[0], n, h);
      RunStanding(Apply(w, steps[0]), steps[1..], n, h);
    }
  }

  lemma ReachableStanding(w: World, n: string, h: string)
    requires Reachable(w)
    ensures Shape(w) && Standing(w, n, h)
  {
    var file, sizes, timeout, now, steps :| Run(file, sizes, timeout, now, steps, w);
    BootShape(file, sizes, timeout, now);
    RunStanding(Boot(file, sizes, timeout, now), steps, n, h);
  }

  /**
   * After grant-forever has answered, a read by that package is granted for every pid and offset, in every
   * later world of the run, whatever re-adds, resets, lockdown changes and crashes came between; and the
   * next process will grant it too, since the disk says so.
   */
  lemma GrantForeverLasts(w: World, n: string, h: string, pid: nat, offset: Usize)
    requires Reachable(w) && (n, h) in w.past.forever
    ensures w.mem.Has(n) && Decide(w.mem.Get(n), pid, Some(h), offset, w.mem.lockdown).Granted?
    ensures EntitledOnDisk(w.disk, n, h)
  {
    ReachableStanding(w, n, h);
    EntitledReadsAreGranted(w.mem.Get(n), h, pid, offset, w.mem.lockdown);
  }

  /** The entitlement stands in every world of a run. */
  predicate StandsThrough(w: World, steps: seq<Step>, n: string, h: string)
    requires Legal(w, steps)
    decreases |steps|
  {
    (n, h) in w.past.forever && (steps != [] ==> StandsThrough(Apply(w, steps[0]), steps[1..], n, h))
  }

  /** Every step leaves thread `t` where it is. */
  predicate Leaves(s: Step, t: nat) {
    !s.Crash? && (s.Thread? ==> s.t != t)
  }

  /** While the entitlement stands no step but a crash puts another record in its place. */
  lemma StepKeepsRecord(w: World, s: Step, n: string, h: string)
    requires Shape(w) && Standing(w, n, h) && Enabled(w, s) && !s.Crash?
    requires (n, h) in w.past.forever && (n, h) in Apply(w, s).past.forever
    ensures n in w.mem.dir && n in Apply(w, s).mem.dir && Apply(w, s).mem.dir[n] == w.mem.dir[n]
  {
    match s
    case Thread(t, move) => TurnKeepsRecord(w, t, At(w, t), move, n, h);
    case _ =>
  }

  lemma ActKeepsRecord(w: World, order: Order, n: string, h: string)
    requires Ready(w, Inside(order), Act) && n in w.mem.dir && (n, h) in DoAct(w, order).past.forever
    ensures var mem := DoAct(w, order).mem; n in mem.dir && mem.dir[n] == w.mem.dir[n]
  {
  }

  lemma TurnKeepsRecord(w: World, t: nat, pc: PC, move: Move, n: string, h: string)
    requires Ready(w, pc, move) && n in w.mem.dir && (n, h) in TurnOf(w, t, pc, move).past.forever
    ensures var mem := TurnOf(w, t, pc, move).mem; n in mem.dir && mem.dir[n] == w.mem.dir[n]
  {
    if move.Act? {
      ActKeepsRecord(w, pc.order, n, h);
    } else if !move.Attempt? && !move.ClearNext? {
      TurnSame(w, t, pc, move);
    }
  }

  lemma {:induction false} HeldStaysCurrent(w: World, steps: seq<Step>, t: nat, n: string, h: string)
    requires Shape(w) && Standing(w, n, h) && Legal(w, steps) && StandsThrough(w, steps, n, h)
    requires forall s :: s in steps ==> Leaves(s, t)
    ensures
      var v := Result(w, steps);
      && At(v, t) == At(w, t) && n in w.mem.dir && n in v.mem.dir && v.mem.dir[n] == w.mem.dir[n]
      && Shape(v) && Standing(v, n, h) && (n, h) in v.past.forever
    decreases |steps|
  {
    if steps != [] {
      assert steps[0] in steps && forall s :: s in steps[1..] ==> s in steps;
      var v := Apply(w, steps[0]);
      assert (n, h) in v.past.forever;
      StepKeepsRecord(w, steps[0], n, h);
      StepShape(w, steps[0]);
      StepStanding(w, steps[0], n, h);
      assert At(v, t) == At(w, t);
      HeldStaysCurrent(v, steps[1..], t, n, h);
    }
  }

  /** A read by an entitled package of the record it holds, which is the current one. */
  lemma EntitledAttempt(w: World, t: nat, n: string, h: string)
    requires Standing(w, n, h) && (n, h) in w.past.forever && At(w, t).Holding? && !At(w, t).probe
    requires At(w, t).ask.name == n && At(w, t).ask.hash == Some(h) && At(w, t).gen == w.mem.dir[n]
    ensures Ready(w, At(w, t), Attempt) && TurnOf(w, t, At(w, t), Attempt).pc.Owing?
  {
    EntitledReadsAreGranted(w.mem.Get(n), h, At(w, t).ask.pid, At(w, t).ask.offset, w.mem.lockdown);
  }

  /**
   * And for the reader itself: a thread that looks the secret up after grant-forever has answered, and reads it
   * whenever it gets to it, is granted the read, whatever other threads, operators and the clock do in between,
   * as long as the entitlement stands.
   */
  lemma FetchedReadIsGranted(w: World, t: nat, steps: seq<Step>, n: string, h: string)
    requires Reachable(w) && At(w, t).Fetching? && !At(w, t).probe
    requires At(w, t).ask.name == n && At(w, t).ask.hash == Some(h)
    requires
      var v := Apply(w, Thread(t, Fetch));
      Legal(v, steps) && StandsThrough(v, steps, n, h) && forall s :: s in steps ==> Leaves(s, t)
    ensures
      var v := Result(Apply(w, Thread(t, Fetch)), steps);
      Ready(v, At(v, t), Attempt) && TurnOf(v, t, At(v, t), Attempt).pc.Owing?
  {
    ReachableStanding(w, n, h);
    var v := Apply(w, Thread(t, Fetch));
    StepShape(w, Thread(t, Fetch));
    StepStanding(w, Thread(t, Fetch), n, h);
    HeldStaysCurrent(v, steps, t, n, h);
    EntitledAttempt(Result(v, steps), t, n, h);
  }

  lemma ActEndsForever(w: World, order: Order, n: string, h: string)
    requires Ready(w, Inside(order), Act)
    ensures (n, h) in w.past.forever && !Ends(order, n) ==> (n, h) in DoAct(w, order).past.forever
  {
  }

  lemma TurnEndsForever(w: World, t: nat, pc: PC, move: Move, n: string, h: string)
    requires Ready(w, pc, move)
    ensures
      var past := TurnOf(w, t, pc, move).past;
      && (move.Finish? && pc.errand == ForeverErrand(n, h) ==> (n, h) in past.forever)
      && ((n, h) in w.past.forever && (n, h) !in past.forever ==> move.Act? && Ends(pc.order, n))
  {
    if move.Act? {
      ActEndsForever(w, pc.order, n, h);
    }
  }

  /** The entitlement is recorded when grant-forever answers, and only a rotation or removal of that secret ends it. */
  lemma OnlyRotateOrRemoveEnds(w: World, s: Step, n: string, h: string)
    requires Enabled(w, s)
    ensures s.Thread? && s.move.Finish? && At(w, s.t).errand == ForeverErrand(n, h) ==>
      (n, h) in Apply(w, s).past.forever
    ensures (n, h) in w.past.forever && (n, h) !in Apply(w, s).past.forever ==>
      s.Thread? && s.move.Act? && Ends(At(w, s.t).order, n)
  {
    if s.Thread? {
      TurnEndsForever(w, s.t, At(w, s.t), s.move, n, h);
    }
  }

  // ── when grant-forever goes through ────────────────────────────

  /**
   * Under the lock grant-forever goes on exactly when its pending is there with a hash, expired or not, and so is the
   * secret; then the record admits the package for good. Otherwise memory stays as it is.
   */
  lemma ForeverOrderMarks(w: World, id: nat)
    requires Ready(w, Inside(ForeverOrder(id)), Act)
    ensures
      var turn, pending := TurnOf(w, 0, Inside(ForeverOrder(id)), Act), w.desk.pending;
      && (turn.pc.Marked? <==>
            id in pending && pending[id].hash.Some? && pending[id].secret in w.mem.dir)
      && (turn.pc.Marked? ==>
            && turn.pc.id == id && turn.pc.name == pending[id].secret && Some(turn.pc.hash) == pending[id].hash
            && EntitledNow(turn.mem, pending[id].secret, turn.pc.hash))
      && (!turn.pc.Marked? ==> turn.pc.Idle? && turn.mem == w.mem && turn.holder.None?)
  {
    if DoForever(w, id).pc.Marked? {
      var p := w.desk.pending[id];
      WhitelistedLists(w.mem.Get(p.secret), p.hash.value, p.process, p.hash.value);
    }
  }

  /**
   * A pending found expired is a remembered denial: whatever happens to it before the grant is settled, grant-forever
   * goes on to write, and answers. A pending found alive is settled by whether it still is.
   */
  lemma ForeverOrderSettles(w: World, v: World, pc: PC)
    requires Ready(w, pc, CheckExpiry)
    ensures
      var looked := TurnOf(w, 0, pc, CheckExpiry).pc;
      && looked == pc.(seen := Some(pc.id in w.desk.pending && w.desk.pending[pc.id].expires <= w.desk.now))
      && Ready(v, looked, Settle)
      && (TurnOf(v, 0, looked, Settle).pc.Walking? <==> looked.seen.value || v.desk.Alive(pc.id))
      && (TurnOf(v, 0, looked, Settle).pc.Walking? ==>
            TurnOf(v, 0, looked, Settle).pc.errand == ForeverErrand(pc.name, pc.hash))
  {
  }

  // ── permitted lists never hold a hash twice ────────────────────

  ghost predicate DistinctDisk(disk: Disk) {
    forall n :: n in disk.secrets ==> NoDuplicates(disk.secrets[n].hashes)
  }

  ghost predicate DistinctMemory(mem: Memory) {
    forall ref :: ref in mem.heap ==> NoDuplicates(mem.heap[ref].hashes)
  }

  ghost predicate DistinctSnap(pc: PC) {
    pc.Walking? ==> forall n :: n in pc.snap ==> NoDuplicates(pc.snap[n].hashes)
  }

  ghost predicate Distinct(w: World) {
    DistinctDisk(w.disk) && DistinctMemory(w.mem) && forall t: nat :: DistinctSnap(At(w, t))
  }

  lemma SetDistinct(mem: Memory, name: string, rec: Rec)
    requires DistinctMemory(mem) && NoDuplicates(rec.hashes)
    ensures mem.Has(name) ==> DistinctMemory(mem.Set(name, rec))
    ensures DistinctMemory(mem.Create(name, rec))
  {
  }

  lemma ActDistinct(w: World, order: Order)
    requires Ready(w, Inside(order), Act) && DistinctMemory(w.mem)
    ensures DistinctMemory(DoAct(w, order).mem)
  {
    match order
    case AddOrder(name, host, size, hash, mode) =>
      if name in w.mem.dir {
        SetDistinct(w.mem, name, ReAdded(w.mem.Get(name), host, size, hash, mode));
      } else {
        SetDistinct(w.mem, name, Created(host, size, hash, mode));
      }
    case ForeverOrder(id) =>
      if DoForever(w, id).pc.Marked? {
        var p := w.desk.pending[id];
        WhitelistKeepsListDistinct(w.mem.Get(p.secret), p.hash.value, p.process);
        SetDistinct(w.mem, p.secret, Whitelisted(w.mem.Get(p.secret), p.hash.value, p.process));
      }
    case _ =>
  }

  lemma AttemptDistinct(w: World, pc: PC)
    requires Ready(w, pc, Attempt) && DistinctMemory(w.mem)
    ensures DistinctMemory(DoAttempt(w, pc).mem)
  {
  }

  lemma SnapsDistinct(w: World, t: nat, pc: PC, move: Move)
    requires Ready(w, pc, move) && DistinctMemory(w.mem) && DistinctDisk(w.disk) && DistinctSnap(pc)
    ensures DistinctDisk(TurnOf(w, t, pc, move).disk) && DistinctSnap(TurnOf(w, t, pc, move).pc)
  {
    var turn := TurnOf(w, t, pc, move);
    TurnSnaps(w, t, pc, move, "");
    forall n | turn.pc.Walking? && n in turn.pc.snap ensures NoDuplicates(turn.pc.snap[n].hashes) {
      TurnSnaps(w, t, pc, move, n);
    }
  }

  lemma TurnDistinct(w: World, t: nat, pc: PC, move: Move)
    requires Ready(w, pc, move) && DistinctMemory(w.mem) && DistinctDisk(w.disk) && DistinctSnap(pc)
    ensures
      var turn := TurnOf(w, t, pc, move);
      DistinctMemory(turn.mem) && DistinctDisk(turn.disk) && DistinctSnap(turn.pc)
  {
    SnapsDistinct(w, t, pc, move);
    if move.Attempt? {
      AttemptDistinct(w, pc);
    } else if move.Act? {
      ActDistinct(w, pc.order);
    } else if move.ClearNext? {
      SetDistinct(w.mem, move.name, Reset(w.mem.Get(move.name)));
    } else {
      TurnSame(w, t, pc, move);
    }
  }

  lemma StepDistinct(w: World, s: Step)
    requires Distinct(w) && Enabled(w, s)
    ensures Distinct(Apply(w, s))
  {
    var v := Apply(w, s);
    match s
    case Thread(t, move) =>
      TurnDistinct(w, t, At(w, t), move);
      forall u: nat ensures DistinctSnap(At(v, u)) {
        OtherStands(w, t, TurnOf(w, t, At(w, t), move), u);
        assert DistinctSnap(At(w, u));
      }
    case Crash(sizes) =>
      assert v.mem == BootMemory(w.disk, sizes);
    case _ =>
      assert forall t: nat :: At(v, t) == At(w, t);
  }

  /** Without duplicates now, no permitted list ever holds a hash twice: in memory, a snapshot, or on disk. */
  lemma {:induction false} ListsStayDistinct(w: World, steps: seq<Step>)
    requires Distinct(w) && Legal(w, steps)
    ensures Distinct(Result(w, steps))
    decreases |steps|
  {
    if steps != [] {
      StepDistinct(w, steps[0]);
      ListsStayDistinct(Apply(w, steps[0]), steps[1..]);
    }
  }

  lemma BootDistinct(file: StoreFile, sizes: HostSizes, timeout: nat, now: nat)
    requires DistinctDisk(file.disk)
    ensures Distinct(Boot(file, sizes, timeout, now))
  {
    var boot := Boot(file, sizes, timeout, now);
    assert forall t: nat :: At(boot, t) == Idle;
    assert DistinctMemory(boot.mem) && DistinctDisk(boot.disk);
  }

  /** And a process that finds a store without duplicates starts without any. */
  lemma RunsStayDistinct(file: StoreFile, sizes: HostSizes, timeout: nat, now: nat, steps: seq<Step>, w: World)
    requires Run(file, sizes, timeout, now, steps, w) && DistinctDisk(file.disk)
    ensures Distinct(w)
  {
    BootDistinct(file, sizes, timeout, now);
    ListsStayDistinct(Boot(file, sizes, timeout, now), steps);
  }
}
