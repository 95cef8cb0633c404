/** Askers and operators: what it takes for a pending to release a read, and that it releases at most one. */
module DaemonAsks {
  import opened Text
  import opened Records
  import opened PolicyStore
  import opened Daemon
  import opened DaemonShape

  /** The pending a thread is asking through. */
  function AskedId(pc: PC): Option<nat> {
    match pc
    case Filed(_, id) => Some(id)
    case Polling(_, id, _) => Some(id)
    case Checking(_, id, _) => Some(id)
    case Doubting(_, id, _) => Some(id)
    case Won(_, id) => Some(id)
    case Waiting(TakeOrder(_, id)) => Some(id)
    case Inside(TakeOrder(_, id)) => Some(id)
    case Walking(TakeErrand(_, id), _, _, _, _) => Some(id)
    case Landed(TakeErrand(_, id)) => Some(id)
    case _ => None
  }

  /** In the ask loop, or about to enter it. */
  predicate Looping(pc: PC) {
    pc.Filed? || pc.Polling? || pc.Checking? || pc.Doubting?
  }

  /** The read of a granted id has been recorded. */
  predicate HasTaken(pc: PC) {
    AskedId(pc).Some? && (pc.Walking? || pc.Landed?)
  }

  /** A win is honest: granted before the pending expired, seen before it expired, and not denied by then. */
  predicate Honest(win: Win) {
    && win.granted.Some?
    && win.granted.value <= win.at < win.expires
    && !win.denied
  }

  predicate Allowing(verdict: Verdict) {
    verdict.Served? || verdict.Vanished?
  }

  // ── what holds of every id and every asker ─────────────────────

  /** A pending carries the expiry it was minted with, has not been denied, and is marked exactly when granted. */
  predicate PendingKept(d: Desk, id: nat) {
    id in d.pending ==>
      && id in d.minted && d.pending[id].expires == d.minted[id] && id !in d.denials
      && (d.pending[id].granted <==> id in d.grants)
  }

  /** Grants are in time, wins honest, at most one read is recorded for an id, and verdicts say which. */
  predicate PastKept(d: Desk, id: nat) {
    && (id in d.minted ==> id < d.nextId)
    && (id in d.denials || id in d.verdicts || id in d.wins || id in d.grants ==> id in d.minted)
    && (id in d.grants ==> d.grants[id] <= d.now && d.grants[id] < d.minted[id])
    && (id in d.wins ==> Honest(d.wins[id]) && d.wins[id].expires == d.minted[id])
    && d.taken[id] <= 1 && (d.taken[id] == 1 ==> id in d.wins)
    && (id in d.verdicts ==> (Allowing(d.verdicts[id]) <==> id in d.wins))
    && (id in d.verdicts ==> (d.verdicts[id].Served? <==> d.taken[id] == 1))
  }

  ghost predicate DeskKept(d: Desk) {
    && (forall id: nat :: PendingKept(d, id) && PastKept(d, id))
    && FIRST_ID <= d.nextId
  }

  /** Gone without having been denied only when expired. */
  predicate Accountable(d: Desk, id: nat) {
    id in d.minted && (id in d.pending || id in d.denials || d.minted[id] <= d.now)
  }

  /** Where an asker stands fits the desk. */
  predicate AskFits(d: Desk, pc: PC) {
    AskedId(pc).Some? ==>
      var id := AskedId(pc).value;
      && id in d.minted && id !in d.verdicts
      && (Looping(pc) ==> id !in d.wins && d.taken[id] == 0 && Accountable(d, id))
      && (pc.Filed? ==> d.minted[id] <= d.now + d.timeout)
      && (pc.Polling? || pc.Checking? || pc.Doubting? ==> d.minted[id] <= pc.deadline)
      && (!Looping(pc) ==> id in d.wins && d.taken[id] == if HasTaken(pc) then 1 else 0)
  }

  ghost predicate Asking(w: World) {
    && DeskKept(w.desk)
    && (forall t: nat :: AskFits(w.desk, At(w, t)))
    && (forall t: nat, u: nat :: AskedId(At(w, t)).Some? && AskedId(At(w, t)) == AskedId(At(w, u)) ==> t == u)
  }

  // ── what a desk operation does to one id ───────────────────────

  /** The clock and the counter go on. */
  predicate Advances(d: Desk, e: Desk) {
    d.nextId <= e.nextId && d.now <= e.now && d.timeout == e.timeout
  }

  /** For an asker of `id` the desk has only aged: its pending may be gone, denied or expired and cleared. */
  predicate Aged(d: Desk, e: Desk, id: nat) {
    && (id in d.minted ==> id in e.minted && e.minted[id] == d.minted[id])
    && (id in e.verdicts <==> id in d.verdicts) && (id in e.wins <==> id in d.wins) && e.taken[id] == d.taken[id]
    && (Accountable(d, id) ==> Accountable(e, id))
  }

  lemma AgedFits(d: Desk, e: Desk, pc: PC)
    requires Advances(d, e) && AskFits(d, pc) && (AskedId(pc).Some? ==> Aged(d, e, AskedId(pc).value))
    ensures AskFits(e, pc)
  {
  }

  /** The desk stays in order, and has only aged for every id but one. */
  ghost predicate Turned(d: Desk, e: Desk, mine: Option<nat>) {
    DeskKept(e) && Advances(d, e) && forall id: nat :: Some(id) != mine ==> Aged(d, e, id)
  }

  lemma StayKept(d: Desk, mine: Option<nat>)
    requires DeskKept(d)
    ensures Turned(d, d, mine)
  {
  }

  lemma MintKept(d: Desk, secret: string, hash: Option<string>, process: Option<string>)
    requires DeskKept(d)
    ensures Turned(d, d.Mint(secret, hash, process), Some(d.nextId))
  {
    var e := d.Mint(secret, hash, process);
    assert PastKept(d, d.nextId) && PendingKept(d, d.nextId);
    forall id: nat ensures PendingKept(e, id) && PastKept(e, id) && (id != d.nextId ==> Aged(d, e, id)) {
      assert PendingKept(d, id) && PastKept(d, id);
    }
  }

  lemma GrantKept(d: Desk, id: nat, mine: Option<nat>)
    requires DeskKept(d)
    ensures Turned(d, d.Grant(id), mine)
  {
    var e := d.Grant(id);
    forall x: nat ensures PendingKept(e, x) && PastKept(e, x) && Aged(d, e, x) {
      assert PendingKept(d, x) && PastKept(d, x);
    }
  }

  lemma DenyKept(d: Desk, id: nat)
    requires DeskKept(d)
    ensures Turned(d, d.Deny(id), None)
  {
    var e := d.Deny(id);
    forall x: nat ensures PendingKept(e, x) && PastKept(e, x) && Aged(d, e, x) {
      assert PendingKept(d, x) && PastKept(d, x);
    }
  }

  lemma CleanupKept(d: Desk)
    requires DeskKept(d)
    ensures Turned(d, AtDesk(d, Cleanup), None)
  {
    var e := AtDesk(d, Cleanup);
    forall x: nat ensures PendingKept(e, x) && PastKept(e, x) && Aged(d, e, x) {
      assert PendingKept(d, x) && PastKept(d, x);
    }
  }

  lemma LookUpKept(d: Desk, id: nat, hash: Option<string>)
    requires DeskKept(d)
    ensures Turned(d, AtDesk(d, LookUp(id, hash)), None)
  {
    var e := AtDesk(d, LookUp(id, hash));
    forall x: nat ensures PendingKept(e, x) && PastKept(e, x) && Aged(d, e, x) {
      assert PendingKept(d, x) && PastKept(d, x);
    }
  }

  lemma TickKept(d: Desk, later: nat)
    requires DeskKept(d)
    ensures Turned(d, AtDesk(d, Tick(later)), None)
  {
    var e := AtDesk(d, Tick(later));
    forall x: nat ensures PendingKept(e, x) && PastKept(e, x) && Aged(d, e, x) {
      assert PendingKept(d, x) && PastKept(d, x);
    }
  }

  lemma OperatorDesk(d: Desk, op: DeskOp)
    requires DeskKept(d)
    ensures Turned(d, AtDesk(d, op), None)
  {
    match op
    case GrantOnce(id) => GrantKept(d, id, None);
    case DenyOnce(id) => DenyKept(d, id);
    case Cleanup => CleanupKept(d);
    case LookUp(id, hash) => LookUpKept(d, id, hash);
    case Tick(later) => TickKept(d, later);
  }

  /** Winning, being collected, being taken and being answered concern the asker's own id only. */
  lemma AwardKept(d: Desk, id: nat)
    requires DeskKept(d) && d.Alive(id) && d.pending[id].granted && id !in d.verdicts
    ensures Turned(d, d.Award(id), Some(id))
  {
    var e := d.Award(id);
    forall x: nat ensures PendingKept(e, x) && PastKept(e, x) && (x != id ==> Aged(d, e, x)) {
      assert PendingKept(d, x) && PastKept(d, x);
    }
  }

  lemma CollectKept(d: Desk, id: nat)
    requires DeskKept(d)
    ensures Turned(d, d.(pending := d.pending - {id}), Some(id))
  {
    var e := d.(pending := d.pending - {id});
    forall x: nat ensures PendingKept(e, x) && PastKept(e, x) && (x != id ==> Aged(d, e, x)) {
      assert PendingKept(d, x) && PastKept(d, x);
    }
  }

  lemma TakeKept(d: Desk, id: nat)
    requires DeskKept(d) && id in d.wins && d.taken[id] == 0 && id !in d.verdicts
    ensures Turned(d, d.Take(id), Some(id)) && d.Take(id).taken[id] == 1
  {
    var e := d.Take(id);
    forall x: nat ensures PendingKept(e, x) && PastKept(e, x) && (x != id ==> Aged(d, e, x)) {
      assert PendingKept(d, x) && PastKept(d, x);
    }
  }

  lemma ConcludeKept(d: Desk, id: nat, verdict: Verdict)
    requires DeskKept(d) && id in d.minted
    requires Allowing(verdict) <==> id in d.wins
    requires verdict.Served? <==> d.taken[id] == 1
    ensures Turned(d, d.Conclude(id, verdict), Some(id))
  {
    var e := d.Conclude(id, verdict);
    forall x: nat ensures PendingKept(e, x) && PastKept(e, x) && (x != id ==> Aged(d, e, x)) {
      assert PendingKept(d, x) && PastKept(d, x);
    }
  }

  // ── what a move does to the desk ───────────────────────────────

  /** The id a move may touch: the mover's own, or the one it mints. */
  function Mine(w: World, pc: PC): Option<nat> {
    if AskedId(pc).Some? then AskedId(pc) else Some(w.desk.nextId)
  }

  /** Moves that leave the desk alone. */
  predicate Deskless(pc: PC, move: Move) {
    && !move.Attempt? && !move.File? && !move.Poll? && !move.CheckDeadline? && !move.CheckDenied? && !move.Collect?
    && !move.Settle? && !(move.Act? && pc.Inside? && pc.order.TakeOrder?)
    && !(move.Finish? && pc.Landed? && pc.errand.TakeErrand?)
  }

  lemma DesklessTurn(w: World, t: nat, pc: PC, move: Move)
    requires Ready(w, pc, move) && Deskless(pc, move)
    ensures
      var turn := TurnOf(w, t, pc, move);
      && turn.desk == w.desk
      && (AskedId(turn.pc).Some? ==>
            && AskedId(turn.pc) == AskedId(pc) && HasTaken(turn.pc) == HasTaken(pc) && Looping(turn.pc) == Looping(pc))
      && (turn.pc.Polling? ==> turn.pc.deadline == w.desk.now + w.desk.timeout && pc.Filed?)
      && !turn.pc.Filed? && !turn.pc.Checking? && !turn.pc.Doubting?
  {
  }

  lemma DesklessFits(w: World, t: nat, pc: PC, move: Move)
    requires Ready(w, pc, move) && Deskless(pc, move) && DeskKept(w.desk) && AskFits(w.desk, pc)
    ensures Turned(w.desk, TurnOf(w, t, pc, move).desk, Mine(w, pc))
    ensures AskFits(TurnOf(w, t, pc, move).desk, TurnOf(w, t, pc, move).pc)
  {
    DesklessTurn(w, t, pc, move);
    StayKept(w.desk, Mine(w, pc));
  }

  lemma AttemptFits(w: World, t: nat, pc: PC)
    requires Ready(w, pc, Attempt) && DeskKept(w.desk)
    ensures Turned(w.desk, DoAttempt(w, pc).desk, Mine(w, pc))
    ensures AskedId(DoAttempt(w, pc).pc).None?
  {
    var observed := if pc.probe then None else pc.ask.hash;
    StayKept(w.desk, Mine(w, pc));
    MintKept(w.desk, pc.ask.name, observed, None);
    assert DoAttempt(w, pc).desk == w.desk || DoAttempt(w, pc).desk == w.desk.Mint(pc.ask.name, observed, None);
  }

  lemma FileFits(w: World, t: nat, pc: PC)
    requires Ready(w, pc, File) && DeskKept(w.desk)
    ensures Turned(w.desk, DoFile(w, pc.ask).desk, Mine(w, pc))
    ensures AskFits(DoFile(w, pc.ask).desk, DoFile(w, pc.ask).pc)
    ensures AskedId(DoFile(w, pc.ask).pc).Some? ==> AskedId(DoFile(w, pc.ask).pc) == Some(w.desk.nextId)
  {
    StayKept(w.desk, Mine(w, pc));
    MintKept(w.desk, pc.ask.name, pc.ask.hash, pc.ask.process);
    assert PastKept(w.desk, w.desk.nextId) && PendingKept(w.desk, w.desk.nextId);
  }

  lemma PollFits(w: World, t: nat, pc: PC)
    requires Ready(w, pc, Poll) && DeskKept(w.desk) && AskFits(w.desk, pc)
    ensures Turned(w.desk, DoPoll(w, pc).desk, Mine(w, pc))
    ensures AskFits(DoPoll(w, pc).desk, DoPoll(w, pc).pc) && AskedId(DoPoll(w, pc).pc) == AskedId(pc)
  {
    assert PendingKept(w.desk, pc.id);
    StayKept(w.desk, Mine(w, pc));
    if w.desk.Alive(pc.id) && w.desk.pending[pc.id].granted {
      AwardKept(w.desk, pc.id);
    }
  }

  lemma CheckFits(w: World, t: nat, pc: PC, move: Move)
    requires Ready(w, pc, move) && (move.CheckDeadline? || move.CheckDenied?)
    requires DeskKept(w.desk) && AskFits(w.desk, pc)
    ensures
      var turn := TurnOf(w, t, pc, move);
      && Turned(w.desk, turn.desk, Mine(w, pc)) && AskFits(turn.desk, turn.pc)
      && (AskedId(turn.pc).Some? ==> AskedId(turn.pc) == AskedId(pc))
  {
    StayKept(w.desk, Mine(w, pc));
    ConcludeKept(w.desk, pc.id, TimedOut);
    ConcludeKept(w.desk, pc.id, TurnedAway);
  }

  lemma CollectFits(w: World, t: nat, pc: PC)
    requires Ready(w, pc, Collect) && DeskKept(w.desk) && AskFits(w.desk, pc)
    ensures
      var turn := TurnOf(w, t, pc, Collect);
      Turned(w.desk, turn.desk, Mine(w, pc)) && AskFits(turn.desk, turn.pc) && AskedId(turn.pc) == AskedId(pc)
  {
    CollectKept(w.desk, pc.id);
  }

  lemma SettleFits(w: World, t: nat, pc: PC)
    requires Ready(w, pc, Settle) && DeskKept(w.desk)
    ensures Turned(w.desk, DoSettle(w, pc).desk, Mine(w, pc)) && AskedId(DoSettle(w, pc).pc).None?
  {
    StayKept(w.desk, Mine(w, pc));
    GrantKept(w.desk, pc.id, Mine(w, pc));
  }

  lemma TakeFits(w: World, t: nat, pc: PC)
    requires pc.Inside? && pc.order.TakeOrder? && Ready(w, pc, Act) && DeskKept(w.desk) && AskFits(w.desk, pc)
    ensures
      var turn := DoAct(w, pc.order);
      && Turned(w.desk, turn.desk, Mine(w, pc)) && AskFits(turn.desk, turn.pc)
      && (AskedId(turn.pc).Some? ==> AskedId(turn.pc) == AskedId(pc))
  {
    TakeKept(w.desk, pc.order.id);
    ConcludeKept(w.desk, pc.order.id, Vanished);
  }

  lemma AnswerFits(w: World, t: nat, pc: PC)
    requires pc.Landed? && pc.errand.TakeErrand? && DeskKept(w.desk) && AskFits(w.desk, pc)
    ensures Turned(w.desk, DoFinish(w, pc.errand).desk, Mine(w, pc)) && AskedId(DoFinish(w, pc.errand).pc).None?
  {
    ConcludeKept(w.desk, pc.errand.id, Served);
  }

  /** Every move keeps the desk in order, touches only the mover's id, and leaves the mover where it fits. */
  lemma TurnFits(w: World, t: nat, pc: PC, move: Move)
    requires Ready(w, pc, move) && DeskKept(w.desk) && AskFits(w.desk, pc)
    ensures
      var turn := TurnOf(w, t, pc, move);
      && Turned(w.desk, turn.desk, Mine(w, pc)) && AskFits(turn.desk, turn.pc)
      && (AskedId(turn.pc).Some? ==> AskedId(turn.pc) == Mine(w, pc))
  {
    if Deskless(pc, move) {
      DesklessFits(w, t, pc, move);
      DesklessTurn(w, t, pc, move);
    } else {
      DeskFits(w, t, pc, move);
    }
  }

  lemma DeskFits(w: World, t: nat, pc: PC, move: Move)
    requires Ready(w, pc, move) && DeskKept(w.desk) && AskFits(w.desk, pc) && !Deskless(pc, move)
    ensures
      var turn := TurnOf(w, t, pc, move);
      && Turned(w.desk, turn.desk, Mine(w, pc)) && AskFits(turn.desk, turn.pc)
      && (AskedId(turn.pc).Some? ==> AskedId(turn.pc) == Mine(w, pc))
  {
    if move.Attempt? {
      AttemptFits(w, t, pc);
    } else if move.File? {
      FileFits(w, t, pc);
    } else if move.Poll? {
      PollFits(w, t, pc);
    } else if move.CheckDeadline? || move.CheckDenied? {
      CheckFits(w, t, pc, move);
    } else if move.Collect? {
      CollectFits(w, t, pc);
    } else if move.Settle? {
      SettleFits(w, t, pc);
    } else if move.Act? {
      TakeFits(w, t, pc);
    } else {
      AnswerFits(w, t, pc);
    }
  }

  // ── every step ─────────────────────────────────────────────────

  /** Nobody else asks through the mover's id, nor through one not yet minted. */
  lemma OthersDiffer(w: World, t: nat, u: nat)
    requires Asking(w) && u != t && AskedId(At(w, u)).Some?
    ensures AskedId(At(w, u)) != Mine(w, At(w, t))
  {
    assert AskFits(w.desk, At(w, u)) && PastKept(w.desk, AskedId(At(w, u)).value);
  }

  lemma MoveAsking(w: World, t: nat, move: Move)
    requires Asking(w) && Ready(w, At(w, t), move)
    ensures Asking(Moved(w, t, TurnOf(w, t, At(w, t), move)))
  {
    var pc := At(w, t);
    var turn := TurnOf(w, t, pc, move);
    var v := Moved(w, t, turn);
    assert AskFits(w.desk, pc);
    TurnFits(w, t, pc, move);
    forall u: nat ensures AskFits(v.desk, At(v, u)) {
      OtherStands(w, t, turn, u);
      if u != t && AskedId(At(w, u)).Some? {
        assert AskFits(w.desk, At(w, u));
        OthersDiffer(w, t, u);
        AgedFits(w.desk, v.desk, At(w, u));
      }
    }
    forall u: nat, r: nat | AskedId(At(v, u)).Some? && AskedId(At(v, u)) == AskedId(At(v, r))
      ensures u == r
    {
      OtherStands(w, t, turn, u);
      OtherStands(w, t, turn, r);
      if u != t && AskedId(At(w, u)).Some? {
        OthersDiffer(w, t, u);
      }
      if r != t && AskedId(At(w, r)).Some? {
        OthersDiffer(w, t, r);
      }
    }
  }

  lemma OperatorAsking(w: World, op: DeskOp)
    requires Asking(w)
    ensures Asking(w.(desk := AtDesk(w.desk, op)))
  {
    var v := w.(desk := AtDesk(w.desk, op));
    OperatorDesk(w.desk, op);
    assert forall t: nat :: At(v, t) == At(w, t);
    forall t: nat ensures AskFits(v.desk, At(v, t)) {
      assert AskFits(w.desk, At(w, t));
      AgedFits(w.desk, v.desk, At(w, t));
    }
  }

  lemma BootDeskKept(timeout: nat, now: nat)
    ensures DeskKept(BootDesk(timeout, now))
  {
  }

  /** Nobody asks anything of a desk just set up. */
  lemma NobodyAsks(w: World, timeout: nat, now: nat)
    requires w.desk == BootDesk(timeout, now) && w.threads == map[]
    ensures Asking(w)
  {
    BootDeskKept(timeout, now);
    assert forall t: nat :: At(w, t) == Idle;
  }

  lemma StepAsking(w: World, s: Step)
    requires Asking(w) && Enabled(w, s)
    ensures Asking(Apply(w, s))
  {
    var v := Apply(w, s);
    match s
    case Thread(t, move) => MoveAsking(w, t, move);
    case Operator(op) => OperatorAsking(w, op);
    case Observe(name, size) =>
      assert v.desk == w.desk && forall t: nat :: At(v, t) == At(w, t);
    case Crash(sizes) => NobodyAsks(v, w.desk.timeout, w.desk.now);
  }

  lemma {:induction false} RunAsking(w: World, steps: seq<Step>)
    requires Asking(w) && Legal(w, steps)
    ensures Asking(Result(w, steps))
    decreases |steps|
  {
    if steps != [] {
      StepAsking(w, steps[0]);
      RunAsking(Apply(w, steps[0]), steps[1..]);
    }
  }

  lemma BootIsAsking(file: StoreFile, sizes: HostSizes, timeout: nat, now: nat)
    ensures Asking(Boot(file, sizes, timeout, now))
  {
    NobodyAsks(Boot(file, sizes, timeout, now), timeout, now);
  }

  lemma ReachableAsking(w: World)
    requires Reachable(w)
    ensures Asking(w)
  {
    var file, sizes, timeout, now, steps :| Run(file, sizes, timeout, now, steps, w);
    BootIsAsking(file, sizes, timeout, now);
    RunAsking(Boot(file, sizes, timeout, now), steps);
  }

  // ── the theorems ───────────────────────────────────────────────

  /**
   * The deciding look decides. An ask that has ended was let through, to its read or to a secret meanwhile
   * removed, exactly when its loop had found its pending granted; and that id had then been granted before it
   * expired, was found so before it expired, and had not been denied.
   */
  lemma LookDecides(w: World, id: nat)
    requires Reachable(w) && id in w.desk.verdicts
    ensures Allowing(w.desk.verdicts[id]) <==> id in w.desk.wins
    ensures id in w.desk.wins ==> Honest(w.desk.wins[id])
  {
    IdKept(w, id);
  }

  /**
   * One grant releases at most one read: for every id at most one read is recorded, only after its grant was
   * found, and an ask is answered with its read exactly when it was recorded.
   */
  lemma OneReadPerGrant(w: World, id: nat)
    requires Reachable(w)
    ensures w.desk.taken[id] <= 1
    ensures w.desk.taken[id] == 1 ==> id in w.desk.wins
    ensures id in w.desk.verdicts ==> (w.desk.verdicts[id].Served? <==> w.desk.taken[id] == 1)
  {
    IdKept(w, id);
  }

  /** In a reachable world, without everything else that holds there. */
  lemma IdKept(w: World, id: nat)
    requires Reachable(w)
    ensures PendingKept(w.desk, id) && PastKept(w.desk, id)
  {
    ReachableAsking(w);
  }

  lemma AskerFits(w: World, t: nat)
    requires Reachable(w)
    ensures AskFits(w.desk, At(w, t))
  {
    ReachableAsking(w);
  }

  /** One thread at most asks through an id, and none once it has its verdict. */
  lemma OneAskerPerId(w: World, t: nat, u: nat)
    requires Reachable(w) && AskedId(At(w, t)).Some?
    ensures AskedId(At(w, t)) == AskedId(At(w, u)) ==> t == u
    ensures AskedId(At(w, t)).value !in w.desk.verdicts
  {
    ReachableAsking(w);
    AskerFits(w, t);
  }

  /**
   * Each id decides one ask once: one thread at most asks through it, and none once it has its verdict, which no
   * step but a restart takes away or changes; and it is never minted again.
   */
  lemma OneVerdictPerId(w: World, s: Step, id: nat)
    requires Reachable(w) && Enabled(w, s) && !s.Crash?
    ensures forall t: nat, u: nat :: AskedId(At(w, t)) == AskedId(At(w, u)) == Some(id) ==> t == u
    ensures forall t: nat :: AskedId(At(w, t)) == Some(id) ==> id !in w.desk.verdicts
    ensures VerdictStands(w.desk, Apply(w, s).desk, id)
  {
    forall t: nat, u: nat | AskedId(At(w, t)) == AskedId(At(w, u)) == Some(id)
      ensures t == u && id !in w.desk.verdicts
    {
      OneAskerPerId(w, t, u);
    }
    StepKeepsVerdict(w, s, id);
  }

  lemma StepKeepsVerdict(w: World, s: Step, id: nat)
    requires Reachable(w) && Enabled(w, s) && !s.Crash?
    ensures VerdictStands(w.desk, Apply(w, s).desk, id)
  {
    IdKept(w, id);
    match s
    case Thread(t, move) =>
      AskerFits(w, t);
      TurnKeepsVerdict(w, t, At(w, t), move, id);
    case Operator(op) => OperatorKeepsVerdict(w.desk, op, id);
    case Observe(_, _) =>
  }

  lemma OperatorKeepsVerdict(d: Desk, op: DeskOp, id: nat)
    ensures VerdictStands(d, AtDesk(d, op), id)
  {
  }

  /** A verdict stays as it is, the reads recorded for it too, and an id once gone is not minted again. */
  predicate VerdictStands(d: Desk, e: Desk, id: nat) {
    && (id in d.verdicts ==> id in e.verdicts && e.verdicts[id] == d.verdicts[id] && e.taken[id] == d.taken[id])
    && (id in d.minted && id !in d.pending ==> id !in e.pending)
  }

  lemma LookKeepsVerdict(w: World, t: nat, pc: PC, move: Move, id: nat)
    requires Ready(w, pc, move) && AskFits(w.desk, pc) && PastKept(w.desk, id)
    requires move.Poll? || move.CheckDeadline? || move.CheckDenied? || move.Collect?
    ensures VerdictStands(w.desk, TurnOf(w, t, pc, move).desk, id)
  {
  }

  lemma MintKeepsVerdict(w: World, t: nat, pc: PC, move: Move, id: nat)
    requires Ready(w, pc, move) && PastKept(w.desk, id) && (move.Attempt? || move.File?)
    ensures VerdictStands(w.desk, TurnOf(w, t, pc, move).desk, id)
  {
  }

  lemma TakeKeepsVerdict(w: World, ask: Ask, taker: nat, id: nat)
    requires Ready(w, Inside(TakeOrder(ask, taker)), Act) && AskFits(w.desk, Inside(TakeOrder(ask, taker)))
    ensures VerdictStands(w.desk, DoAct(w, TakeOrder(ask, taker)).desk, id)
  {
  }

  lemma TurnKeepsVerdict(w: World, t: nat, pc: PC, move: Move, id: nat)
    requires Ready(w, pc, move) && AskFits(w.desk, pc) && PastKept(w.desk, id)
    ensures VerdictStands(w.desk, TurnOf(w, t, pc, move).desk, id)
  {
    if Deskless(pc, move) {
      DesklessTurn(w, t, pc, move);
    } else if move.Attempt? || move.File? {
      MintKeepsVerdict(w, t, pc, move, id);
    } else if move.Act? {
      TakeKeepsVerdict(w, pc.order.ask, pc.order.id, id);
    } else if !move.Settle? && !move.Finish? {
      LookKeepsVerdict(w, t, pc, move, id);
    }
  }

  // ── what each look answers ─────────────────────────────────────

  /** The first look wins exactly on a pending granted, not denied, and not yet expired. */
  predicate WinsExactly(w: World, t: nat)
    requires At(w, t).Polling?
  {
    var pc, d := At(w, t), w.desk;
    && pc.id in d.minted
    && (TurnOf(w, t, pc, Poll).pc.Won? <==> pc.id in d.grants && pc.id !in d.denials && d.now < d.minted[pc.id])
  }

  /** The second look times out exactly past the deadline, which is no earlier than the expiry. */
  predicate TimesOutExactly(w: World, t: nat)
    requires At(w, t).Checking?
  {
    var pc, d := At(w, t), w.desk;
    && pc.id in d.minted && d.minted[pc.id] <= pc.deadline
    && (TurnOf(w, t, pc, CheckDeadline).pc.Idle? <==> d.now > pc.deadline)
    && (d.now > pc.deadline ==> TurnOf(w, t, pc, CheckDeadline).desk.verdicts == d.verdicts[pc.id := TimedOut])
  }

  /** The third look answers "denied" exactly on a pending denied or expired. */
  predicate TurnsAwayExactly(w: World, t: nat)
    requires At(w, t).Doubting?
  {
    var pc, d := At(w, t), w.desk;
    && pc.id in d.minted
    && (TurnOf(w, t, pc, CheckDenied).pc.Idle? <==> pc.id in d.denials || d.minted[pc.id] <= d.now)
    && (pc.id in d.denials || d.minted[pc.id] <= d.now ==>
          TurnOf(w, t, pc, CheckDenied).desk.verdicts == d.verdicts[pc.id := TurnedAway])
  }

  /** About to look at the pending. */
  predicate Looking(pc: PC) {
    pc.Polling? || pc.Checking? || pc.Doubting?
  }

  /** The look ends the loop, or is the first and hands on to the second. */
  predicate EndsWithinRound(w: World, t: nat, move: Move)
    requires Looking(At(w, t)) && Ready(w, At(w, t), move)
  {
    var pc, next := At(w, t), TurnOf(w, t, At(w, t), move).pc;
    if pc.Polling? then next.Checking? && next.deadline == pc.deadline else next.Idle?
  }

  lemma PollWinsHere(w: World, t: nat)
    requires At(w, t).Polling?
    requires AskFits(w.desk, At(w, t)) && PendingKept(w.desk, At(w, t).id)
    ensures WinsExactly(w, t)
  {
  }

  /** The loop wins exactly when its pending has been granted, has not been denied, and has not yet expired. */
  lemma PollWins(w: World, t: nat)
    requires Reachable(w) && At(w, t).Polling?
    ensures WinsExactly(w, t)
  {
    AskerFits(w, t);
    IdKept(w, At(w, t).id);
    PollWinsHere(w, t);
  }

  lemma DeadlineTimesOutHere(w: World, t: nat)
    requires At(w, t).Checking? && AskFits(w.desk, At(w, t))
    ensures TimesOutExactly(w, t)
  {
  }

  /** The loop times out exactly past its deadline, which is no earlier than the pending's expiry. */
  lemma DeadlineTimesOut(w: World, t: nat)
    requires Reachable(w) && At(w, t).Checking?
    ensures TimesOutExactly(w, t)
  {
    AskerFits(w, t);
    DeadlineTimesOutHere(w, t);
  }

  lemma DeniedOrExpiredHere(w: World, t: nat)
    requires At(w, t).Doubting?
    requires AskFits(w.desk, At(w, t)) && PendingKept(w.desk, At(w, t).id)
    ensures TurnsAwayExactly(w, t)
  {
  }

  /**
   * The loop answers "denied" exactly when the pending has been denied or has expired. So an ask that nobody
   * denied is answered so exactly when this look comes at or after the pending's expiry, which is no later than
   * the deadline the look before found not yet past.
   */
  lemma DeniedOrExpired(w: World, t: nat)
    requires Reachable(w) && At(w, t).Doubting?
    ensures TurnsAwayExactly(w, t)
  {
    AskerFits(w, t);
    IdKept(w, At(w, t).id);
    DeniedOrExpiredHere(w, t);
  }

  lemma LoopEndsByDeadlineHere(w: World, t: nat, move: Move)
    requires Looking(At(w, t)) && Ready(w, At(w, t), move) && w.desk.now > At(w, t).deadline
    requires AskFits(w.desk, At(w, t)) && PendingKept(w.desk, At(w, t).id)
    ensures EndsWithinRound(w, t, move)
  {
  }

  /**
   * No ask loop outlives its deadline: past it, no look wins, the look at the clock times out, the look for a
   * denial turns away, and none goes back to the start.
   */
  lemma LoopEndsByDeadline(w: World, t: nat, move: Move)
    requires Reachable(w) && Looking(At(w, t)) && Ready(w, At(w, t), move) && w.desk.now > At(w, t).deadline
    ensures EndsWithinRound(w, t, move)
  {
    AskerFits(w, t);
    IdKept(w, At(w, t).id);
    LoopEndsByDeadlineHere(w, t, move);
  }

  // ── what a deny can still stop ─────────────────────────────────

  lemma PollKeepsWins(w: World, pc: PC, id: nat)
    requires pc.Polling? && PendingKept(w.desk, id) && id in w.desk.denials
    ensures
      var d := DoPoll(w, pc).desk;
      id in d.denials && (id in d.wins <==> id in w.desk.wins)
  {
  }

  lemma TurnWins(w: World, t: nat, pc: PC, move: Move, id: nat)
    requires Ready(w, pc, move) && PendingKept(w.desk, id) && id in w.desk.denials
    ensures
      var d := TurnOf(w, t, pc, move).desk;
      id in d.denials && (id in d.wins <==> id in w.desk.wins)
  {
    if Deskless(pc, move) {
      DesklessTurn(w, t, pc, move);
    } else if move.Poll? {
      PollKeepsWins(w, pc, id);
    }
  }

  lemma StepWins(w: World, s: Step, id: nat)
    requires Enabled(w, s) && PendingKept(w.desk, id) && id in w.desk.denials && !s.Crash?
    ensures
      var d := Apply(w, s).desk;
      id in d.denials && (id in d.wins <==> id in w.desk.wins)
  {
    match s
    case Thread(t, move) => TurnWins(w, t, At(w, t), move, id);
    case Operator(op) =>
    case Observe(_, _) =>
  }

  /** Once denied, an ask is never won any more. */
  lemma {:induction false} DeniedNeverWins(w: World, steps: seq<Step>, id: nat)
    requires Asking(w) && Legal(w, steps) && id in w.desk.denials
    requires forall s :: s in steps ==> !s.Crash?
    ensures id in Result(w, steps).desk.wins <==> id in w.desk.wins
    decreases |steps|
  {
    if steps != [] {
      assert steps[0] in steps && forall x :: x in steps[1..] ==> x in steps;
      assert PendingKept(w.desk, id);
      StepWins(w, steps[0], id);
      StepAsking(w, steps[0]);
      DeniedNeverWins(Apply(w, steps[0]), steps[1..], id);
    }
  }

  /**
   * A deny stops its ask exactly when it comes before the look that finds the grant: from then on, however the
   * process goes on, if the ask ends, it has been let through just when it had been won by the time of the deny.
   */
  lemma DenyStopsUnlessWon(w: World, id: nat, steps: seq<Step>)
    requires Reachable(w) && id in w.desk.pending
    requires
      var denied := Apply(w, Operator(DenyOnce(id)));
      Legal(denied, steps) && (forall s :: s in steps ==> !s.Crash?) && id in Result(denied, steps).desk.verdicts
    ensures
      var v := Result(Apply(w, Operator(DenyOnce(id))), steps);
      Allowing(v.desk.verdicts[id]) <==> id in w.desk.wins
  {
    var denied := Apply(w, Operator(DenyOnce(id)));
    ReachableAsking(w);
    StepAsking(w, Operator(DenyOnce(id)));
    DeniedNeverWins(denied, steps, id);
    RunAsking(denied, steps);
    assert PastKept(Result(denied, steps).desk, id);
  }
}
