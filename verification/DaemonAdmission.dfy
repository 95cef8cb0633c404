/** Nobody reads who was not let in: every answered byte went to a process the list or an operator had admitted. */
module DaemonAdmission {
  import opened Text
  import opened Records
  import opened PolicyStore
  import opened Daemon
  import opened DaemonShape
  import opened DaemonAsks
  import opened Promises

  /**
   * The list permitted what the process showed, or a pending about this very secret was granted in time, found so in
   * time, and not denied.
   */
  predicate Sound(a: Admission) {
    match a
    case ByList(_, _, shown, hashes) => Permits(hashes, shown)
    case ByHand(name, _, win) => win.Some? && Honest(win.value) && win.value.secret == name
  }

  ghost predicate Has(past: Past, name: string, pid: nat) {
    exists a :: a in past.admitted && a.name == name && a.pid == pid
  }

  /** A read that opened its own stream was permitted by the list as it was then. */
  predicate Listed(ask: Ask, release: Release) {
    release.first ==> Permits(release.hashes, ask.hash)
  }

  ghost predicate FairRead(past: Past, ask: Ask, probe: bool, release: Release) {
    Has(past, ask.name, ask.pid) && (!probe ==> Listed(ask, release))
  }

  /** A read under way was admitted. */
  ghost predicate Fair(past: Past, pc: PC) {
    match pc
    case Owing(ask, probe, release) => FairRead(past, ask, probe, release)
    case Walking(ReadErrand(ask, probe, release), _, _, _, _) => FairRead(past, ask, probe, release)
    case Landed(ReadErrand(ask, probe, release)) => FairRead(past, ask, probe, release)
    case _ => true
  }

  function AskedName(pc: PC): string {
    match pc
    case Filed(ask, _) => ask.name
    case Polling(ask, _, _) => ask.name
    case Checking(ask, _, _) => ask.name
    case Doubting(ask, _, _) => ask.name
    case Won(ask, _) => ask.name
    case Waiting(TakeOrder(ask, _)) => ask.name
    case Inside(TakeOrder(ask, _)) => ask.name
    case Walking(TakeErrand(ask, _), _, _, _, _) => ask.name
    case Landed(TakeErrand(ask, _)) => ask.name
    case _ => ""
  }

  /** An asker's pending is about the secret it wants, and so is what it won. */
  predicate OwnSecret(d: Desk, pc: PC) {
    AskedId(pc).Some? ==>
      && (AskedId(pc).value in d.pending ==> d.pending[AskedId(pc).value].secret == AskedName(pc))
      && (AskedId(pc).value in d.wins ==> d.wins[AskedId(pc).value].secret == AskedName(pc))
  }

  /** Whoever has a stream was let in. */
  ghost predicate StreamsHeld(mem: Memory, past: Past) {
    forall ref :: ref in mem.heap && mem.heap[ref].reader.Some? ==> Has(past, ref.0, mem.heap[ref].reader.value)
  }

  ghost predicate AllSound(past: Past) {
    forall a :: a in past.admitted ==> Sound(a)
  }

  ghost predicate AnswersFair(past: Past) {
    forall i :: 0 <= i < |past.served| ==> FairRead(past, past.served[i].ask, false, past.served[i].release)
  }

  ghost predicate LetIn(w: World) {
    && AllSound(w.past) && StreamsHeld(w.mem, w.past) && AnswersFair(w.past)
    && (forall t: nat :: Fair(w.past, At(w, t)) && OwnSecret(w.desk, At(w, t)))
  }

  // ── admissions only accumulate ─────────────────────────────────

  lemma HasGrows(past: Past, next: Past, name: string, pid: nat)
    requires past.admitted <= next.admitted && Has(past, name, pid)
    ensures Has(next, name, pid)
  {
    var a :| a in past.admitted && a.name == name && a.pid == pid;
    assert a in next.admitted;
  }

  lemma FairGrows(past: Past, next: Past, pc: PC)
    requires past.admitted <= next.admitted && Fair(past, pc)
    ensures Fair(next, pc)
  {
    match pc
    case Owing(ask, _, _) => HasGrows(past, next, ask.name, ask.pid);
    case Walking(ReadErrand(ask, _, _), _, _, _, _) => HasGrows(past, next, ask.name, ask.pid);
    case Landed(ReadErrand(ask, _, _)) => HasGrows(past, next, ask.name, ask.pid);
    case _ =>
  }

  // ── what a move admits ─────────────────────────────────────────

  /** A granted attempt is by the owner of the stream, or by a process the list permits. */
  lemma AttemptAdmits(w: World, pc: PC)
    requires Ready(w, pc, Attempt) && StreamsHeld(w.mem, w.past) && AllSound(w.past)
    ensures
      var turn := DoAttempt(w, pc);
      && w.past.admitted <= turn.past.admitted && AllSound(turn.past) && turn.past.served == w.past.served
      && Fair(turn.past, turn.pc)
      && (turn.pc.Owing? ==> turn.pc.ask == pc.ask && Has(turn.past, pc.ask.name, pc.ask.pid))
  {
    var ask, rec := pc.ask, w.mem.heap[(pc.ask.name, pc.gen)];
    var observed := if pc.probe then None else ask.hash;
    var turn := DoAttempt(w, pc);
    if turn.pc.Owing? && rec.reader != Some(ask.pid) {
      FirstReadAdmission(rec, ask.pid, observed, ask.offset, w.mem.lockdown);
      assert ByList(ask.name, ask.pid, observed, rec.hashes) in turn.past.admitted;
    }
  }

  lemma AttemptHolds(w: World, pc: PC)
    requires Ready(w, pc, Attempt) && StreamsHeld(w.mem, w.past) && AllSound(w.past)
    ensures StreamsHeld(DoAttempt(w, pc).mem, DoAttempt(w, pc).past)
  {
    var turn := DoAttempt(w, pc);
    AttemptAdmits(w, pc);
    forall ref | ref in turn.mem.heap && turn.mem.heap[ref].reader.Some?
      ensures Has(turn.past, ref.0, turn.mem.heap[ref].reader.value)
    {
      if turn.mem.heap[ref] == w.mem.heap[ref] {
        HasGrows(w.past, turn.past, ref.0, w.mem.heap[ref].reader.value);
      }
    }
  }

  lemma TakeAdmits(w: World, ask: Ask, id: nat)
    requires Ready(w, Inside(TakeOrder(ask, id)), Act) && AllSound(w.past)
    requires AskFits(w.desk, Inside(TakeOrder(ask, id))) && OwnSecret(w.desk, Inside(TakeOrder(ask, id)))
    requires PastKept(w.desk, id)
    ensures
      var turn := DoAct(w, TakeOrder(ask, id));
      && w.past.admitted <= turn.past.admitted && AllSound(turn.past) && turn.past.served == w.past.served
      && (turn.pc.Walking? ==> Has(turn.past, ask.name, ask.pid))
  {
    assert ask.name in w.mem.dir ==>
      ByHand(ask.name, ask.pid, w.desk.WinOf(id)) in DoAct(w, TakeOrder(ask, id)).past.admitted;
  }

  lemma AddHolds(
    w: World, name: string, host: string, size: Usize, hash: string, mode: nat, ref: (string, nat))
    requires Ready(w, Inside(AddOrder(name, host, size, hash, mode)), Act) && RefsKept(w.mem)
    ensures
      var turn := DoAct(w, AddOrder(name, host, size, hash, mode));
      ref in turn.mem.heap && turn.mem.heap[ref].reader.Some? ==>
        ref in w.mem.heap && turn.mem.heap[ref].reader == w.mem.heap[ref].reader
  {
  }

  lemma ForeverHolds(w: World, id: nat, ref: (string, nat))
    requires Ready(w, Inside(ForeverOrder(id)), Act) && RefsKept(w.mem)
    ensures
      var turn := DoForever(w, id);
      && turn.past.admitted == w.past.admitted && turn.past.served == w.past.served
      && (ref in turn.mem.heap && turn.mem.heap[ref].reader.Some? ==>
            ref in w.mem.heap && turn.mem.heap[ref].reader == w.mem.heap[ref].reader)
  {
  }

  /** The other orders admit nobody, and leave every stream with whom it was or with nobody. */
  lemma OrderHolds(w: World, order: Order, ref: (string, nat))
    requires Ready(w, Inside(order), Act) && RefsKept(w.mem) && !order.TakeOrder?
    ensures
      var turn := DoAct(w, order);
      && turn.past.admitted == w.past.admitted && turn.past.served == w.past.served
      && (ref in turn.mem.heap && turn.mem.heap[ref].reader.Some? ==>
            ref in w.mem.heap && turn.mem.heap[ref].reader == w.mem.heap[ref].reader)
  {
    match order
    case AddOrder(name, host, size, hash, mode) => AddHolds(w, name, host, size, hash, mode, ref);
    case ForeverOrder(id) => ForeverHolds(w, id, ref);
    case _ =>
  }

  lemma TakeHolds(w: World, ask: Ask, id: nat, ref: (string, nat))
    requires Ready(w, Inside(TakeOrder(ask, id)), Act) && RefsKept(w.mem)
    ensures
      var turn := DoAct(w, TakeOrder(ask, id));
      ref in turn.mem.heap && turn.mem.heap[ref].reader.Some? ==>
        || (ref in w.mem.heap && turn.mem.heap[ref].reader == w.mem.heap[ref].reader)
        || (turn.pc.Walking? && ref.0 == ask.name && turn.mem.heap[ref].reader == Some(ask.pid))
  {
  }

  lemma ActAdmits(w: World, order: Order)
    requires Ready(w, Inside(order), Act) && RefsKept(w.mem) && AllSound(w.past) && StreamsHeld(w.mem, w.past)
    requires AskFits(w.desk, Inside(order)) && OwnSecret(w.desk, Inside(order)) && DeskKept(w.desk)
    ensures
      var turn := DoAct(w, order);
      && w.past.admitted <= turn.past.admitted && AllSound(turn.past) && turn.past.served == w.past.served
      && StreamsHeld(turn.mem, turn.past) && Fair(turn.past, turn.pc)
  {
    var turn := DoAct(w, order);
    ActFacts(w, order);
    if order.TakeOrder? {
      assert PastKept(w.desk, order.id);
      TakeAdmits(w, order.ask, order.id);
    } else {
      OrderHolds(w, order, ("", 0));
    }
    forall ref | ref in turn.mem.heap && turn.mem.heap[ref].reader.Some?
      ensures Has(turn.past, ref.0, turn.mem.heap[ref].reader.value)
    {
      if order.TakeOrder? {
        TakeHolds(w, order.ask, order.id, ref);
      } else {
        OrderHolds(w, order, ref);
      }
      if ref in w.mem.heap && turn.mem.heap[ref].reader == w.mem.heap[ref].reader {
        HasGrows(w.past, turn.past, ref.0, w.mem.heap[ref].reader.value);
      }
    }
  }

  lemma ClearHolds(w: World, pc: PC, name: string)
    requires Ready(w, pc, ClearNext(name)) && StreamsHeld(w.mem, w.past)
    ensures
      var turn := DoClear(w, pc, name);
      && StreamsHeld(turn.mem, turn.past) && turn.past.admitted == w.past.admitted
      && turn.past.served == w.past.served && Fair(turn.past, turn.pc)
  {
    var turn := DoClear(w, pc, name);
    forall ref | ref in turn.mem.heap && turn.mem.heap[ref].reader.Some?
      ensures Has(turn.past, ref.0, turn.mem.heap[ref].reader.value)
    {
      HasGrows(w.past, turn.past, ref.0, w.mem.heap[ref].reader.value);
    }
  }

  /** The moves that leave memory alone hand a read on from debt to walk to answer, and admit nobody. */
  lemma QuietAdmits(w: World, t: nat, pc: PC, move: Move)
    requires Ready(w, pc, move) && !move.Attempt? && !move.Act? && !move.ClearNext?
    requires Fair(w.past, pc) && AnswersFair(w.past)
    ensures
      var turn := TurnOf(w, t, pc, move);
      turn.past.admitted == w.past.admitted && Fair(w.past, turn.pc)
  {
  }

  lemma QuietAnswers(w: World, t: nat, pc: PC, move: Move)
    requires Ready(w, pc, move) && !move.Attempt? && !move.Act? && !move.ClearNext?
    requires Fair(w.past, pc) && AnswersFair(w.past)
    ensures
      var turn := TurnOf(w, t, pc, move);
      forall i :: 0 <= i < |turn.past.served| ==>
        FairRead(w.past, turn.past.served[i].ask, false, turn.past.served[i].release)
  {
  }

  lemma FairStays(past: Past, next: Past, ask: Ask, probe: bool, release: Release)
    requires past.admitted <= next.admitted && FairRead(past, ask, probe, release)
    ensures FairRead(next, ask, probe, release)
  {
    HasGrows(past, next, ask.name, ask.pid);
  }

  lemma AnswersStay(past: Past, next: Past)
    requires past.admitted <= next.admitted && AnswersFair(past) && next.served == past.served
    ensures AnswersFair(next)
  {
    forall i | 0 <= i < |next.served| ensures FairRead(next, next.served[i].ask, false, next.served[i].release) {
      FairStays(past, next, past.served[i].ask, false, past.served[i].release);
    }
  }

  lemma TurnAdmits(w: World, t: nat, pc: PC, move: Move)
    requires Ready(w, pc, move) && RefsKept(w.mem) && DeskKept(w.desk)
    requires AllSound(w.past) && StreamsHeld(w.mem, w.past) && AnswersFair(w.past)
    requires AskFits(w.desk, pc) && OwnSecret(w.desk, pc) && Fair(w.past, pc)
    ensures
      var turn := TurnOf(w, t, pc, move);
      && w.past.admitted <= turn.past.admitted && AllSound(turn.past)
      && StreamsHeld(turn.mem, turn.past) && AnswersFair(turn.past) && Fair(turn.past, turn.pc)
  {
    var turn := TurnOf(w, t, pc, move);
    if move.Attempt? {
      AttemptAdmits(w, pc);
      AttemptHolds(w, pc);
      AnswersStay(w.past, turn.past);
    } else if move.Act? {
      ActAdmits(w, pc.order);
      AnswersStay(w.past, turn.past);
    } else if move.ClearNext? {
      ClearHolds(w, pc, move.name);
      AnswersStay(w.past, turn.past);
    } else {
      QuietTurn(w, t, pc, move);
    }
  }

  lemma QuietTurn(w: World, t: nat, pc: PC, move: Move)
    requires Ready(w, pc, move) && !move.Attempt? && !move.Act? && !move.ClearNext?
    requires AllSound(w.past) && StreamsHeld(w.mem, w.past) && AnswersFair(w.past) && Fair(w.past, pc)
    ensures
      var turn := TurnOf(w, t, pc, move);
      && turn.past.admitted == w.past.admitted && AllSound(turn.past)
      && StreamsHeld(turn.mem, turn.past) && AnswersFair(turn.past) && Fair(turn.past, turn.pc)
  {
    var turn := TurnOf(w, t, pc, move);
    TurnSame(w, t, pc, move);
    QuietAdmits(w, t, pc, move);
    QuietAnswers(w, t, pc, move);
    SamePast(w.mem, w.past, turn.past, turn.pc);
  }

  lemma SamePast(mem: Memory, past: Past, next: Past, pc: PC)
    requires past.admitted == next.admitted && AllSound(past) && StreamsHeld(mem, past) && Fair(past, pc)
    requires forall i :: 0 <= i < |next.served| ==>
      FairRead(past, next.served[i].ask, false, next.served[i].release)
    ensures AllSound(next) && StreamsHeld(mem, next) && Fair(next, pc) && AnswersFair(next)
  {
    FairGrows(past, next, pc);
    forall ref | ref in mem.heap && mem.heap[ref].reader.Some? ensures Has(next, ref.0, mem.heap[ref].reader.value) {
      HasGrows(past, next, ref.0, mem.heap[ref].reader.value);
    }
    forall i | 0 <= i < |next.served| ensures FairRead(next, next.served[i].ask, false, next.served[i].release) {
      FairStays(past, next, next.served[i].ask, false, next.served[i].release);
    }
  }

  // ── whose pending it is ────────────────────────────────────────

  /** An id keeps the secret it was minted for, and its win. */
  predicate SecretStays(d: Desk, e: Desk, id: nat) {
    && (id in e.pending && id in d.minted ==> id in d.pending && e.pending[id].secret == d.pending[id].secret)
    && (id in e.wins ==> id in d.wins && e.wins[id] == d.wins[id])
  }

  lemma OperatorSecret(d: Desk, op: DeskOp, id: nat)
    ensures SecretStays(d, AtDesk(d, op), id)
  {
  }

  lemma TurnSecret(w: World, t: nat, pc: PC, move: Move, id: nat)
    requires Ready(w, pc, move) && DeskKept(w.desk) && AskedId(pc) != Some(id)
    ensures SecretStays(w.desk, TurnOf(w, t, pc, move).desk, id)
  {
    assert PastKept(w.desk, id);
    if Deskless(pc, move) {
      DesklessTurn(w, t, pc, move);
    } else if move.Act? {
      TakeSecret(w, pc.order.ask, pc.order.id, id);
    } else if move.Poll? || move.CheckDeadline? || move.CheckDenied? || move.Collect? {
      LookSecret(w, t, pc, move, id);
    } else {
      OtherSecret(w, t, pc, move, id);
    }
  }

  lemma TakeSecret(w: World, ask: Ask, taker: nat, id: nat)
    requires Ready(w, Inside(TakeOrder(ask, taker)), Act)
    ensures SecretStays(w.desk, DoAct(w, TakeOrder(ask, taker)).desk, id)
  {
  }

  lemma LookSecret(w: World, t: nat, pc: PC, move: Move, id: nat)
    requires Ready(w, pc, move) && AskedId(pc) != Some(id)
    requires move.Poll? || move.CheckDeadline? || move.CheckDenied? || move.Collect?
    ensures SecretStays(w.desk, TurnOf(w, t, pc, move).desk, id)
  {
  }

  lemma OtherSecret(w: World, t: nat, pc: PC, move: Move, id: nat)
    requires Ready(w, pc, move) && PastKept(w.desk, id)
    requires move.Attempt? || move.File? || move.Settle? || move.Finish?
    ensures SecretStays(w.desk, TurnOf(w, t, pc, move).desk, id)
  {
  }

  lemma FiledSecret(w: World, ask: Ask)
    requires DeskKept(w.desk)
    ensures OwnSecret(DoFile(w, ask).desk, DoFile(w, ask).pc)
  {
    assert PastKept(w.desk, w.desk.nextId);
  }

  lemma TakenSecret(w: World, ask: Ask, id: nat)
    requires Ready(w, Inside(TakeOrder(ask, id)), Act) && OwnSecret(w.desk, Inside(TakeOrder(ask, id)))
    ensures OwnSecret(DoAct(w, TakeOrder(ask, id)).desk, DoAct(w, TakeOrder(ask, id)).pc)
  {
  }

  /** No other order is for an asker. */
  lemma NotAsking(w: World, order: Order)
    requires Ready(w, Inside(order), Act) && !order.TakeOrder?
    ensures AskedId(DoAct(w, order).pc).None?
  {
  }

  lemma LookedSecret(w: World, t: nat, pc: PC, move: Move)
    requires Ready(w, pc, move) && OwnSecret(w.desk, pc)
    requires move.SetDeadline? || move.Poll? || move.CheckDeadline? || move.CheckDenied? || move.Collect?
    ensures OwnSecret(TurnOf(w, t, pc, move).desk, TurnOf(w, t, pc, move).pc)
  {
  }

  lemma CarriedSecret(w: World, t: nat, pc: PC, move: Move)
    requires Ready(w, pc, move) && OwnSecret(w.desk, pc)
    requires move.Acquire? || move.Visit? || move.Land? || move.Finish?
    ensures OwnSecret(TurnOf(w, t, pc, move).desk, TurnOf(w, t, pc, move).pc)
  {
  }

  /** The mover's own pending stays about its own secret, and so is what it wins. */
  lemma MoverSecret(w: World, t: nat, pc: PC, move: Move)
    requires Ready(w, pc, move) && DeskKept(w.desk) && OwnSecret(w.desk, pc)
    ensures OwnSecret(TurnOf(w, t, pc, move).desk, TurnOf(w, t, pc, move).pc)
  {
    match move
    case File => FiledSecret(w, pc.ask);
    case Act =>
      if pc.order.TakeOrder? {
        TakenSecret(w, pc.order.ask, pc.order.id);
      } else {
        NotAsking(w, pc.order);
      }
    case Attempt => assert AskedId(DoAttempt(w, pc).pc).None?;
    case SetDeadline => LookedSecret(w, t, pc, move);
    case Poll => LookedSecret(w, t, pc, move);
    case CheckDeadline => LookedSecret(w, t, pc, move);
    case CheckDenied => LookedSecret(w, t, pc, move);
    case Collect => LookedSecret(w, t, pc, move);
    case Acquire => CarriedSecret(w, t, pc, move);
    case Visit(_) => CarriedSecret(w, t, pc, move);
    case Land => CarriedSecret(w, t, pc, move);
    case Finish => CarriedSecret(w, t, pc, move);
    case _ => assert AskedId(TurnOf(w, t, pc, move).pc).None?;
  }

  // ── runs ───────────────────────────────────────────────────────

  lemma MoveLetIn(w: World, t: nat, move: Move)
    requires Shape(w) && Asking(w) && LetIn(w) && Ready(w, At(w, t), move)
    ensures LetIn(Moved(w, t, TurnOf(w, t, At(w, t), move)))
  {
    var pc := At(w, t);
    var turn := TurnOf(w, t, pc, move);
    var v := Moved(w, t, turn);
    TurnAdmits(w, t, pc, move);
    MoverSecret(w, t, pc, move);
    forall u: nat ensures Fair(v.past, At(v, u)) && OwnSecret(v.desk, At(v, u)) {
      OtherStands(w, t, turn, u);
      if u != t {
        FairGrows(w.past, turn.past, At(w, u));
        OthersSecret(w, t, move, u);
      }
    }
  }

  lemma OthersSecret(w: World, t: nat, move: Move, u: nat)
    requires Asking(w) && Ready(w, At(w, t), move) && u != t && OwnSecret(w.desk, At(w, u))
    ensures OwnSecret(TurnOf(w, t, At(w, t), move).desk, At(w, u))
  {
    if AskedId(At(w, u)).Some? {
      assert AskFits(w.desk, At(w, u));
      TurnSecret(w, t, At(w, t), move, AskedId(At(w, u)).value);
    }
  }

  lemma AdmittedAtRest(w: World)
    requires w.threads == map[] && AllSound(w.past) && AnswersFair(w.past)
    requires forall ref :: ref in w.mem.heap ==> w.mem.heap[ref].reader.None?
    ensures LetIn(w)
  {
    assert forall t: nat :: At(w, t) == Idle;
  }

  lemma StepLetIn(w: World, s: Step)
    requires Shape(w) && Asking(w) && LetIn(w) && Enabled(w, s)
    ensures LetIn(Apply(w, s))
  {
    var v := Apply(w, s);
    match s
    case Thread(t, move) => MoveLetIn(w, t, move);
    case Observe(name, size) =>
      assert forall t: nat :: At(v, t) == At(w, t);
    case Operator(op) =>
      forall t: nat ensures OwnSecret(v.desk, At(v, t)) && Fair(v.past, At(v, t)) {
        assert At(v, t) == At(w, t) && AskFits(w.desk, At(w, t));
        if AskedId(At(w, t)).Some? {
          OperatorSecret(w.desk, op, AskedId(At(w, t)).value);
        }
      }
    case Crash(sizes) =>
      AnswersStay(w.past, v.past);
      AdmittedAtRest(v);
  }

  lemma {:induction false} RunLetIn(w: World, steps: seq<Step>)
    requires Shape(w) && Asking(w) && LetIn(w) && Legal(w, steps)
    ensures LetIn(Result(w, steps))
    decreases |steps|
  {
    if steps != [] {
      StepShape(w, steps[0]);
      StepAsking(w, steps[0]);
      StepLetIn(w, steps[0]);
      RunLetIn(Apply(w, steps[0]), steps[1..]);
    }
  }

  lemma ReachableLetIn(w: World)
    requires Reachable(w)
    ensures LetIn(w)
  {
    var file, sizes, timeout, now, steps :| Run(file, sizes, timeout, now, steps, w);
    BootShape(file, sizes, timeout, now);
    BootIsAsking(file, sizes, timeout, now);
    AdmittedAtRest(Boot(file, sizes, timeout, now));
    RunLetIn(Boot(file, sizes, timeout, now), steps);
  }

  /**
   * Over every interleaving, crashes included, a read that was answered as the first of its stream went to a package
   * that was on the secret's list when the read was decided, or the list had the wildcard.
   */
  lemma FirstAnswersWereListed(w: World, i: nat)
    requires Reachable(w) && i < |w.past.served| && w.past.served[i].release.first
    ensures Permits(w.past.served[i].release.hashes, w.past.served[i].ask.hash)
  {
    ReachableLetIn(w);
    assert FairRead(w.past, w.past.served[i].ask, false, w.past.served[i].release);
  }

  ghost predicate SoundlyAdmitted(past: Past, ask: Ask) {
    exists a :: a in past.admitted && Sound(a) && a.name == ask.name && a.pid == ask.pid
  }

  /**
   * And every automatic answer at all went to a process that had been let in to that secret: by the list, which
   * permitted what it showed, or by an operator, who granted a pending about that secret while it lived.
   */
  lemma AnsweredWereAdmitted(w: World, i: nat)
    requires Reachable(w) && i < |w.past.served|
    ensures SoundlyAdmitted(w.past, w.past.served[i].ask)
  {
    ReachableLetIn(w);
    var ask := w.past.served[i].ask;
    assert FairRead(w.past, ask, false, w.past.served[i].release);
    var a :| a in w.past.admitted && a.name == ask.name && a.pid == ask.pid;
    assert Sound(a);
  }
}
