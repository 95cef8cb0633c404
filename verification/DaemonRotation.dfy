/** Rotation over whole runs: once done it stands in memory, once answered on disk, until the list may grow again. */
module DaemonRotation {
  import opened Text
  import opened Records
  import opened PolicyStore
  import opened Daemon
  import opened DaemonShape
  import opened Promises

  predicate OnlyNow(mem: Memory, n: string, h: string) {
    mem.Has(n) && OnlyNames(mem.Get(n).hashes, h)
  }

  predicate OnlyOnDisk(disk: Disk, n: string, h: string) {
    n in disk.secrets && OnlyNames(disk.secrets[n].hashes, h)
  }

  predicate OnlyInSnap(pc: PC, n: string, h: string) {
    pc.Walking? && n in pc.snap ==> OnlyNames(pc.snap[n].hashes, h)
  }

  predicate HasRotated(past: Past, n: string, h: string) {
    n in past.rotated && past.rotated[n] == h
  }

  predicate HasRevoked(past: Past, n: string, h: string) {
    n in past.revoked && past.revoked[n] == h
  }

  /** A rotation of `n` to `h` on its way to disk. */
  predicate Rotating(pc: PC, n: string, h: string) {
    match pc
    case Walking(RotateErrand(name, hash), _, _, _, _) => name == n && hash == h
    case Landed(RotateErrand(name, hash)) => name == n && hash == h
    case _ => false
  }

  ghost predicate Revoking(w: World, n: string, h: string) {
    && (HasRotated(w.past, n, h) ==> OnlyNow(w.mem, n, h))
    && (HasRevoked(w.past, n, h) ==>
          && HasRotated(w.past, n, h) && OnlyOnDisk(w.disk, n, h)
          && (forall t: nat :: OnlyInSnap(At(w, t), n, h)))
    && (forall t: nat :: Rotating(At(w, t), n, h) ==>
          && HasRotated(w.past, n, h) && OnlyInSnap(At(w, t), n, h)
          && (At(w, t).Landed? ==> OnlyOnDisk(w.disk, n, h)))
  }

  // ── what a move does ───────────────────────────────────────────

  lemma AttemptRotation(w: World, pc: PC, n: string, h: string)
    requires Ready(w, pc, Attempt) && RefsKept(w.mem)
    ensures OnlyNow(w.mem, n, h) ==> OnlyNow(DoAttempt(w, pc).mem, n, h)
    ensures DoAttempt(w, pc).past.rotated == w.past.rotated && DoAttempt(w, pc).past.revoked == w.past.revoked
    ensures !Rotating(DoAttempt(w, pc).pc, n, h)
  {
  }

  lemma AddRotation(
    w: World, name: string, host: string, size: Usize, hash: string, mode: nat, n: string, h: string)
    requires Ready(w, Inside(AddOrder(name, host, size, hash, mode)), Act) && RefsKept(w.mem)
    ensures
      var turn := DoAct(w, AddOrder(name, host, size, hash, mode));
      && (OnlyNow(w.mem, n, h) && n != name ==> OnlyNow(turn.mem, n, h))
      && (HasRotated(turn.past, n, h) ==> HasRotated(w.past, n, h) && n != name)
      && (HasRevoked(turn.past, n, h) ==> HasRevoked(w.past, n, h) && n != name)
  {
    if name in w.mem.dir {
      SetRefs(w.mem, name, ReAdded(w.mem.Get(name), host, size, hash, mode));
    } else {
      CreateRefs(w.mem, name, Created(host, size, hash, mode));
    }
  }

  lemma ForeverRotation(w: World, id: nat, n: string, h: string)
    requires Ready(w, Inside(ForeverOrder(id)), Act) && RefsKept(w.mem)
    ensures
      var turn := DoForever(w, id);
      && (HasRotated(turn.past, n, h) ==>
            HasRotated(w.past, n, h) && (OnlyNow(w.mem, n, h) ==> OnlyNow(turn.mem, n, h)))
      && (HasRevoked(turn.past, n, h) ==>
            HasRevoked(w.past, n, h) && HasRotated(turn.past, n, h) == HasRotated(w.past, n, h))
      && !Rotating(turn.pc, n, h)
  {
  }

  lemma RotateRotation(w: World, name: string, hash: string, n: string, h: string)
    requires Ready(w, Inside(RotateOrder(name, hash)), Act) && RefsKept(w.mem)
    ensures
      var turn := DoAct(w, RotateOrder(name, hash));
      && (HasRotated(turn.past, n, h) ==>
            if n == name && name in w.mem.dir then OnlyNow(turn.mem, n, h)
            else HasRotated(w.past, n, h) && (OnlyNow(w.mem, n, h) ==> OnlyNow(turn.mem, n, h)))
      && (HasRevoked(turn.past, n, h) ==> HasRevoked(w.past, n, h) && (n != name || name !in w.mem.dir))
      && (Rotating(turn.pc, n, h) ==> HasRotated(turn.past, n, h))
  {
    if name in w.mem.dir {
      SetRefs(w.mem, name, Rotated(w.mem.Get(name), hash));
      RotationRevokes(w.mem.Get(name), hash, h);
    }
  }

  /** What an order does to a rotation that stands in memory, or is answered. */
  lemma ActRotation(w: World, order: Order, n: string, h: string)
    requires Ready(w, Inside(order), Act) && RefsKept(w.mem)
    requires HasRotated(w.past, n, h) ==> OnlyNow(w.mem, n, h)
    requires HasRevoked(w.past, n, h) ==> HasRotated(w.past, n, h)
    ensures
      var turn := DoAct(w, order);
      && (HasRotated(turn.past, n, h) ==> OnlyNow(turn.mem, n, h))
      && (HasRevoked(turn.past, n, h) ==> HasRevoked(w.past, n, h) && HasRotated(turn.past, n, h))
      && (Rotating(turn.pc, n, h) ==> HasRotated(turn.past, n, h))
  {
    match order
    case AddOrder(name, host, size, hash, mode) => AddRotation(w, name, host, size, hash, mode, n, h);
    case ForeverOrder(id) => ForeverRotation(w, id, n, h);
    case RotateOrder(name, hash) => RotateRotation(w, name, hash, n, h);
    case _ =>
  }

  lemma ClearRotation(w: World, pc: PC, name: string, n: string, h: string)
    requires Ready(w, pc, ClearNext(name)) && RefsKept(w.mem)
    ensures
      var turn := DoClear(w, pc, name);
      && (OnlyNow(w.mem, n, h) ==> OnlyNow(turn.mem, n, h)) && !Rotating(turn.pc, n, h)
      && turn.past.rotated == w.past.rotated && turn.past.revoked == w.past.revoked
  {
    SetRefs(w.mem, name, Reset(w.mem.Get(name)));
  }

  /** The moves that leave memory alone carry a rotation to its answer, which records it as revoking. */
  lemma QuietRotation(w: World, t: nat, pc: PC, move: Move, n: string, h: string)
    requires Ready(w, pc, move) && !move.Attempt? && !move.Act? && !move.ClearNext?
    ensures
      var turn := TurnOf(w, t, pc, move);
      && turn.past.rotated == w.past.rotated
      && (HasRevoked(turn.past, n, h) ==>
            HasRevoked(w.past, n, h) || (move.Finish? && pc.Landed? && Rotating(pc, n, h)))
      && (Rotating(turn.pc, n, h) ==> Rotating(pc, n, h))
  {
  }

  /** Everything a move does to a rotation but for disk and snapshots. */
  lemma TurnRotation(w: World, t: nat, pc: PC, move: Move, n: string, h: string)
    requires Ready(w, pc, move) && RefsKept(w.mem)
    requires HasRotated(w.past, n, h) ==> OnlyNow(w.mem, n, h)
    requires HasRevoked(w.past, n, h) ==> HasRotated(w.past, n, h)
    requires Rotating(pc, n, h) ==> HasRotated(w.past, n, h)
    ensures
      var turn := TurnOf(w, t, pc, move);
      && (HasRotated(turn.past, n, h) ==> OnlyNow(turn.mem, n, h))
      && (HasRevoked(turn.past, n, h) ==>
            && HasRotated(turn.past, n, h)
            && (HasRevoked(w.past, n, h) || (move.Finish? && pc.Landed? && Rotating(pc, n, h))))
      && (Rotating(turn.pc, n, h) ==>
            HasRotated(turn.past, n, h) && (move.Act? || Rotating(pc, n, h)))
      && (!move.Act? ==> turn.past.rotated == w.past.rotated)
  {
    if move.Attempt? {
      AttemptRotation(w, pc, n, h);
    } else if move.Act? {
      ActRotation(w, pc.order, n, h);
    } else if move.ClearNext? {
      ClearRotation(w, pc, move.name, n, h);
    } else {
      TurnSame(w, t, pc, move);
      QuietRotation(w, t, pc, move, n, h);
    }
  }

  // ── moves ──────────────────────────────────────────────────────

  /** A snapshot that visits `n` while only `h` is listed says so. */
  lemma SnapRotation(w: World, t: nat, pc: PC, move: Move, n: string, h: string)
    requires Ready(w, pc, move) && OnlyInSnap(pc, n, h)
    requires move.Visit? ==> OnlyNow(w.mem, n, h)
    ensures OnlyInSnap(TurnOf(w, t, pc, move).pc, n, h)
  {
    TurnSnaps(w, t, pc, move, n);
    if !move.Visit? {
      FreshSnap(w, t, pc, move, n);
    }
  }

  /** No other move adds to a snapshot. */
  lemma FreshSnap(w: World, t: nat, pc: PC, move: Move, n: string)
    requires Ready(w, pc, move) && !move.Visit?
    ensures
      var turn := TurnOf(w, t, pc, move);
      turn.pc.Walking? && n in turn.pc.snap ==> pc.Walking? && turn.pc.snap == pc.snap
  {
    if move.Act? {
      ActFacts(w, pc.order);
    }
  }

  lemma DiskRotation(w: World, t: nat, pc: PC, move: Move, n: string, h: string)
    requires Ready(w, pc, move) && Fits(w.mem, pc) && n in w.mem.dir
    requires move.Land? ==> OnlyInSnap(pc, n, h)
    requires !move.Land? ==> OnlyOnDisk(w.disk, n, h)
    ensures OnlyOnDisk(TurnOf(w, t, pc, move).disk, n, h)
  {
    TurnSnaps(w, t, pc, move, n);
    if move.Land? {
      assert n in pc.snap;
    }
  }

  lemma MoverRotation(w: World, t: nat, move: Move, n: string, h: string)
    requires Shape(w) && Revoking(w, n, h) && Ready(w, At(w, t), move)
    ensures
      var turn := TurnOf(w, t, At(w, t), move);
      && (HasRotated(turn.past, n, h) ==> OnlyNow(turn.mem, n, h))
      && (Rotating(turn.pc, n, h) ==>
            && HasRotated(turn.past, n, h) && OnlyInSnap(turn.pc, n, h)
            && (turn.pc.Landed? ==> OnlyOnDisk(turn.disk, n, h)))
  {
    var pc := At(w, t);
    var turn := TurnOf(w, t, pc, move);
    TurnRotation(w, t, pc, move, n, h);
    if Rotating(turn.pc, n, h) {
      if move.Act? {
        ActFacts(w, pc.order);
      } else {
        assert Rotating(pc, n, h);
        SnapRotation(w, t, pc, move, n, h);
        RotatingLands(w, t, pc, move, n, h);
      }
    }
  }

  lemma RotatingLands(w: World, t: nat, pc: PC, move: Move, n: string, h: string)
    requires Ready(w, pc, move) && Rotating(pc, n, h) && Fits(w.mem, pc) && OnlyNow(w.mem, n, h)
    requires OnlyInSnap(pc, n, h)
    ensures
      var turn := TurnOf(w, t, pc, move);
      Rotating(turn.pc, n, h) && turn.pc.Landed? ==> OnlyOnDisk(turn.disk, n, h)
  {
    if move.Land? {
      DiskRotation(w, t, pc, move, n, h);
    }
  }

  lemma MoveRevoked(w: World, t: nat, move: Move, n: string, h: string)
    requires Shape(w) && Revoking(w, n, h) && Ready(w, At(w, t), move)
    requires HasRevoked(TurnOf(w, t, At(w, t), move).past, n, h)
    ensures
      var turn := TurnOf(w, t, At(w, t), move);
      HasRotated(turn.past, n, h) && OnlyOnDisk(turn.disk, n, h) && OnlyInSnap(turn.pc, n, h)
  {
    var pc := At(w, t);
    TurnRotation(w, t, pc, move, n, h);
    if HasRevoked(w.past, n, h) {
      assert OnlyInSnap(pc, n, h);
      SnapRotation(w, t, pc, move, n, h);
      DiskRotation(w, t, pc, move, n, h);
    } else {
      FinishedRotation(w, t, pc, n, h);
    }
  }

  lemma FinishedRotation(w: World, t: nat, pc: PC, n: string, h: string)
    requires Ready(w, pc, Finish) && pc.Landed? && OnlyOnDisk(w.disk, n, h)
    ensures
      var turn := TurnOf(w, t, pc, Finish);
      OnlyOnDisk(turn.disk, n, h) && OnlyInSnap(turn.pc, n, h)
  {
  }

  /** Nobody else is walking while a rotation is answered. */
  lemma OthersSnap(w: World, t: nat, move: Move, n: string, h: string, u: nat)
    requires Shape(w) && Revoking(w, n, h) && Ready(w, At(w, t), move) && u != t
    requires HasRevoked(TurnOf(w, t, At(w, t), move).past, n, h)
    ensures OnlyInSnap(At(w, u), n, h)
  {
    TurnRotation(w, t, At(w, t), move, n, h);
    SoleHolder(w, t, u);
  }

  /** Nor is another rotation under way while an order acts. */
  lemma OthersRotating(w: World, t: nat, move: Move, n: string, h: string, u: nat)
    requires Shape(w) && Revoking(w, n, h) && Ready(w, At(w, t), move) && u != t && Rotating(At(w, u), n, h)
    ensures
      var turn := TurnOf(w, t, At(w, t), move);
      && HasRotated(turn.past, n, h) && OnlyInSnap(At(w, u), n, h)
      && (At(w, u).Landed? ==> OnlyOnDisk(turn.disk, n, h))
  {
    TurnRotation(w, t, At(w, t), move, n, h);
    TurnSnaps(w, t, At(w, t), move, n);
    SoleHolder(w, t, u);
  }

  lemma MoveRevoking(w: World, t: nat, move: Move, n: string, h: string)
    requires Shape(w) && Revoking(w, n, h) && Ready(w, At(w, t), move)
    ensures Revoking(Moved(w, t, TurnOf(w, t, At(w, t), move)), n, h)
  {
    var turn := TurnOf(w, t, At(w, t), move);
    var v := Moved(w, t, turn);
    MoverRotation(w, t, move, n, h);
    if HasRevoked(turn.past, n, h) {
      MoveRevoked(w, t, move, n, h);
      forall u: nat ensures OnlyInSnap(At(v, u), n, h) {
        OtherStands(w, t, turn, u);
        if u != t {
          OthersSnap(w, t, move, n, h, u);
        }
      }
    }
    forall u: nat | Rotating(At(v, u), n, h)
      ensures HasRotated(v.past, n, h) && OnlyInSnap(At(v, u), n, h)
      ensures At(v, u).Landed? ==> OnlyOnDisk(v.disk, n, h)
    {
      OtherStands(w, t, turn, u);
      if u != t {
        OthersRotating(w, t, move, n, h, u);
      }
    }
  }

  // ── runs ───────────────────────────────────────────────────────

  lemma StepRevoking(w: World, s: Step, n: string, h: string)
    requires Shape(w) && Enabled(w, s) && Revoking(w, n, h)
    ensures Revoking(Apply(w, s), n, h)
  {
    var v := Apply(w, s);
    match s
    case Thread(t, move) => MoveRevoking(w, t, move, n, h);
    case Observe(name, size) =>
      SetRefs(w.mem, name, w.mem.Get(name).(size := size));
      assert forall t: nat :: At(v, t) == At(w, t);
    case Operator(op) =>
      assert forall t: nat :: At(v, t) == At(w, t);
    case Crash(sizes) =>
      BootRefs(w.disk, sizes);
      assert forall t: nat :: At(v, t) == Idle;
  }

  lemma {:induction false} RunRevoking(w: World, steps: seq<Step>, n: string, h: string)
    requires Shape(w) && Revoking(w, n, h) && Legal(w, steps)
    ensures Revoking(Result(w, steps), n, h)
    decreases |steps|
  {
    if steps != [] {
      StepShape(w, steps[0]);
      StepRevoking(w, steps[0], n, h);
      RunRevoking(Apply(w, steps[0]), steps[1..], n, h);
    }
  }

  lemma ReachableRevoking(w: World, n: string, h: string)
    requires Reachable(w)
    ensures Revoking(w, n, h)
  {
    var file, sizes, timeout, now, steps :| Run(file, sizes, timeout, now, steps, w);
    var boot := Boot(file, sizes, timeout, now);
    BootShape(file, sizes, timeout, now);
    assert forall t: nat :: At(boot, t) == Idle;
    RunRevoking(boot, steps, n, h);
  }

  /**
   * Once a rotation has been done, and until an add, grant-forever or remove of that secret, memory lists only the new
   * package; and once it has been answered, so does the disk, whatever crashes come between.
   */
  lemma RotationStands(w: World, n: string)
    requires Reachable(w)
    ensures n in w.past.rotated ==> w.mem.Has(n) && OnlyNames(w.mem.Get(n).hashes, w.past.rotated[n])
    ensures n in w.past.revoked ==>
      && n in w.past.rotated && w.past.rotated[n] == w.past.revoked[n]
      && n in w.disk.secrets && OnlyNames(w.disk.secrets[n].hashes, w.past.revoked[n])
  {
    if n in w.past.rotated {
      ReachableRevoking(w, n, w.past.rotated[n]);
    }
    if n in w.past.revoked {
      ReachableRevoking(w, n, w.past.revoked[n]);
    }
  }

  /** What a thread shows when it attempts a read: the probe shows nothing. */
  function Shown(pc: PC): Option<string>
    requires pc.Holding?
  {
    if pc.probe then None else pc.ask.hash
  }

  lemma RefusedAttempt(w: World, t: nat, pc: PC)
    requires Ready(w, pc, Attempt)
    requires !Decide(w.mem.heap[(pc.ask.name, pc.gen)], pc.ask.pid, Shown(pc), pc.ask.offset, w.mem.lockdown).Granted?
    ensures !TurnOf(w, t, pc, Attempt).pc.Owing?
  {
  }

  /** So a read of the current record by any other package is refused, unless it goes on with a stream it had. */
  lemma RotatedReadsAreRefused(w: World, t: nat, n: string)
    requires Reachable(w) && n in w.past.rotated && w.past.rotated[n] != "*"
    requires w.mem.Has(n) && At(w, t).Holding? && At(w, t).ask.name == n && At(w, t).gen == w.mem.dir[n]
    requires At(w, t).ask.hash != Some(w.past.rotated[n]) && w.mem.Get(n).reader != Some(At(w, t).ask.pid)
    ensures Ready(w, At(w, t), Attempt) && !TurnOf(w, t, At(w, t), Attempt).pc.Owing?
  {
    var pc := At(w, t);
    RotationStands(w, n);
    OnlyNamedRead(w.mem.Get(n), w.past.rotated[n], pc.ask.pid, Shown(pc), pc.ask.offset, w.mem.lockdown);
    RefusedAttempt(w, t, pc);
  }

  /** The orders that put another list in place for `n`. */
  predicate Supersedes(w: World, order: Order, n: string) {
    match order
    case AddOrder(name, _, _, _, _) => name == n
    case RemoveOrder(name) => name == n
    case RotateOrder(name, _) => name == n
    case ForeverOrder(id) => id in w.desk.pending && w.desk.pending[id].secret == n
    case _ => false
  }

  lemma ActEnds(w: World, order: Order, n: string, h: string)
    requires Ready(w, Inside(order), Act)
    ensures
      var past := DoAct(w, order).past;
      && (order == RotateOrder(n, h) && n in w.mem.dir ==> HasRotated(past, n, h))
      && (!Supersedes(w, order, n) && HasRotated(w.past, n, h) ==> HasRotated(past, n, h))
      && (!Supersedes(w, order, n) && HasRevoked(w.past, n, h) ==> HasRevoked(past, n, h))
  {
  }

  lemma FinishEnds(w: World, errand: Errand, n: string, h: string)
    ensures
      var past := DoFinish(w, errand).past;
      && past.rotated == w.past.rotated
      && past.revoked ==
         (if errand.RotateErrand? then w.past.revoked[errand.name := errand.hash] else w.past.revoked)
      && (errand == RotateErrand(n, h) ==> HasRevoked(past, n, h))
  {
  }

  lemma QuietEnds(w: World, t: nat, pc: PC, move: Move)
    requires Ready(w, pc, move) && !move.Act? && !move.Finish?
    ensures
      var past := TurnOf(w, t, pc, move).past;
      past.rotated == w.past.rotated && past.revoked == w.past.revoked
  {
  }

  lemma TurnEnds(w: World, t: nat, pc: PC, move: Move, n: string, h: string)
    requires Ready(w, pc, move) && !move.Act?
    ensures
      var past := TurnOf(w, t, pc, move).past;
      && past.rotated == w.past.rotated
      && (past.revoked == w.past.revoked ||
          (move.Finish? && pc.errand.RotateErrand? && past.revoked == w.past.revoked[pc.errand.name := pc.errand.hash]))
      && (move.Finish? && pc.errand == RotateErrand(n, h) ==> HasRevoked(past, n, h))
  {
    if move.Finish? {
      FinishEnds(w, pc.errand, n, h);
    } else {
      QuietEnds(w, t, pc, move);
    }
  }

  /** Another rotation of `n` is being answered. */
  predicate Replaces(errand: Errand, n: string) {
    errand.RotateErrand? && errand.name == n
  }

  /**
   * A rotation is recorded the moment its order acts, and as revoking when it is answered. Only an add, a remove or a
   * grant-forever of that secret ends it, or the next rotation takes its place; a crash ends only what nobody had
   * been answered.
   */
  lemma OnlyGrowingEnds(w: World, t: nat, move: Move, n: string, h: string)
    requires Ready(w, At(w, t), move)
    ensures
      var pc, past := At(w, t), Apply(w, Thread(t, move)).past;
      && (move.Act? && pc.order == RotateOrder(n, h) && n in w.mem.dir ==> HasRotated(past, n, h))
      && (move.Finish? && pc.errand == RotateErrand(n, h) ==> HasRevoked(past, n, h))
      && (HasRotated(w.past, n, h) && !HasRotated(past, n, h) ==> move.Act? && Supersedes(w, pc.order, n))
      && (HasRevoked(w.past, n, h) && !HasRevoked(past, n, h) ==>
            if move.Act? then Supersedes(w, pc.order, n) else move.Finish? && Replaces(pc.errand, n))
  {
    if move.Act? {
      ActEnds(w, At(w, t).order, n, h);
    } else {
      TurnEnds(w, t, At(w, t), move, n, h);
    }
  }

  lemma OnlyThreadsEnd(w: World, s: Step, n: string, h: string)
    requires Enabled(w, s) && !s.Thread?
    ensures HasRevoked(w.past, n, h) ==> HasRevoked(Apply(w, s).past, n, h)
    ensures HasRotated(w.past, n, h) && (s.Crash? ==> HasRevoked(w.past, n, h)) ==> HasRotated(Apply(w, s).past, n, h)
  {
  }
}
