/** Runs that show the limits of the daemon's guarantees: each is a short interleaving the step system allows. */
module DaemonRaces {
  import opened Text
  import opened Records
  import opened PolicyStore
  import opened Daemon
  import opened DaemonShape
  import opened DaemonDurability

  /**
   * A store with one limited secret `name` that admits one package, and a reader of another package.
   * Every scene below is about these, whatever the names are.
   */
  datatype Scene = Scene(name: string, host: string, admitted: string, stranger: string, timeout: nat) {
    predicate Valid() {
      admitted != stranger && admitted != WILDCARD_HASH && timeout > 0
    }

    function Stored(): Stored {
      PolicyStore.Stored(host, 0, [Permitted(admitted, None)], 0, false)
    }

    function Disk(): Disk {
      Daemon.Disk(false, map[name := Stored()])
    }

    function Rec(): Rec {
      Records.Rec(host, 0, [Permitted(admitted, None)], 0, None, 0, 0, false)
    }

    function Memory(rec: Rec): Memory {
      Daemon.Memory(map[name := 0], map[(name, 0) := rec], 1, false)
    }

    function Ask(): Ask {
      Daemon.Ask(name, 7, Some(stranger), None, 0, 1)
    }

    /** The desk once the reader's pending is filed, under id 1. */
    function Filed(): Desk {
      BootDesk(timeout, 0).(
        pending := map[1 := Ticket(name, Some(stranger), None, timeout, false)],
        nextId := 2,
        minted := map[1 := timeout])
    }
  }

  /** Everything but the threads, and where threads 1 and 2 stand; nobody else is about. */
  ghost predicate Stage(
    w: World, mem: Memory, desk: Desk, disk: Disk, holder: Option<nat>, past: Past, one: PC, two: PC)
  {
    && w.mem == mem && w.desk == desk && w.disk == disk && w.holder == holder && w.past == past
    && At(w, 1) == one && At(w, 2) == two
    && (forall t: nat :: t != 1 && t != 2 ==> At(w, t).Idle?)
  }

  const UNTOUCHED := Past(multiset{}, [], {}, {}, {}, {}, map[], map[], {}, false)

  lemma BootOfOne(name: string, stored: PolicyStore.Stored)
    ensures BootMemory(Daemon.Disk(false, map[name := stored]), map[]).dir == map[name := 0]
    ensures BootMemory(Daemon.Disk(false, map[name := stored]), map[]).heap == map[(name, 0) := Revive(stored, 0)]
  {
    var disk := Daemon.Disk(false, map[name := stored]);
    var heap := BootMemory(disk, map[]).heap;
    assert name in disk.secrets;
    assert (name, 0) in heap;
    assert forall k :: k in heap ==> k == (name, 0);
  }

  lemma BootOf(s: Scene)
    ensures BootMemory(s.Disk(), map[]) == s.Memory(s.Rec())
    ensures s.Memory(s.Rec()).Has(s.name) && s.Memory(s.Rec()).Get(s.name) == s.Rec()
  {
    BootOfOne(s.name, s.Stored());
  }

  lemma StrangerIsRefused(s: Scene, observed: Option<string>)
    requires s.Valid() && (observed == Some(s.stranger) || observed == None)
    ensures Decide(s.Rec(), 7, observed, 0, false).HashMismatch?
  {
  }

  lemma MoveApplies(w: World, t: nat, move: Move)
    requires Ready(w, At(w, t), move)
    ensures Enabled(w, Thread(t, move))
    ensures Apply(w, Thread(t, move)) == Moved(w, t, TurnOf(w, t, At(w, t), move))
  {
  }

  lemma MovedStage(w: World, t: nat, turn: Turn)
    requires t == 1 || t == 2
    requires forall u: nat :: u != 1 && u != 2 ==> At(w, u).Idle?
    ensures Stage(Moved(w, t, turn), turn.mem, turn.desk, turn.disk, turn.holder, turn.past,
      if t == 1 then turn.pc else At(w, 1), if t == 2 then turn.pc else At(w, 2))
  {
    forall u: nat ensures At(Moved(w, t, turn), u) == if u == t then turn.pc else At(w, u) {
      OtherStands(w, t, turn, u);
    }
  }

  /** One move of thread 1 or 2, as its turn says. */
  lemma Advance(w: World, t: nat, move: Move, turn: Turn) returns (v: World)
    requires Reachable(w) && (t == 1 || t == 2) && Ready(w, At(w, t), move) && TurnOf(w, t, At(w, t), move) == turn
    requires forall u: nat :: u != 1 && u != 2 ==> At(w, u).Idle?
    ensures Reachable(v)
    ensures Stage(v, turn.mem, turn.desk, turn.disk, turn.holder, turn.past,
      if t == 1 then turn.pc else At(w, 1), if t == 2 then turn.pc else At(w, 2))
  {
    MoveApplies(w, t, move);
    ReachableNext(w, Thread(t, move));
    MovedStage(w, t, turn);
    v := Moved(w, t, turn);
  }

  lemma Operate(w: World, op: DeskOp) returns (v: World)
    requires Reachable(w)
    requires forall u: nat :: u != 1 && u != 2 ==> At(w, u).Idle?
    ensures Reachable(v)
    ensures Stage(v, w.mem, AtDesk(w.desk, op), w.disk, w.holder, w.past, At(w, 1), At(w, 2))
  {
    v := Apply(w, Operator(op));
    ReachableNext(w, Operator(op));
    assert forall t: nat :: At(v, t) == At(w, t);
  }

  lemma AttemptIsDenied(s: Scene, w: World, probe: bool)
    requires s.Valid() && w.mem == s.Memory(s.Rec())
    ensures Ready(w, Holding(s.Ask(), probe, 0), Attempt)
    ensures TurnOf(w, 1, Holding(s.Ask(), probe, 0), Attempt) ==
      Stay(w, if probe then Filing(s.Ask()) else Fetching(s.Ask(), true))
  {
    StrangerIsRefused(s, if probe then None else Some(s.stranger));
  }

  lemma SceneOpens(s: Scene) returns (w: World)
    ensures Reachable(w)
    ensures Stage(w, s.Memory(s.Rec()), BootDesk(s.timeout, 0), s.Disk(), None, UNTOUCHED, Idle, Idle)
  {
    BootOf(s);
    w := Boot(StoreFile(true, s.Disk()), map[], s.timeout, 0);
    ReachableBoot(StoreFile(true, s.Disk()), map[], s.timeout, 0);
    assert forall n :: n in s.Disk().secrets ==> !s.Disk().secrets[n].unlimited;
    assert w.past.touched == {};
  }

  /** The stranger asks and is refused with its hash. */
  lemma StrangerAsks(s: Scene) returns (w: World)
    requires s.Valid()
    ensures Reachable(w)
    ensures
      Stage(w, s.Memory(s.Rec()), BootDesk(s.timeout, 0), s.Disk(), None, UNTOUCHED, Fetching(s.Ask(), true), Idle)
  {
    w := SceneOpens(s);
    w := Advance(w, 1, StartAsk(s.Ask()), Stay(w, Fetching(s.Ask(), false)));
    w := Advance(w, 1, Fetch, Stay(w, Holding(s.Ask(), false, 0)));
    AttemptIsDenied(s, w, false);
    w := Advance(w, 1, Attempt, Stay(w, Fetching(s.Ask(), true)));
  }

  /** Refused again without it, the stranger files a pending and polls. */
  lemma StrangerPolls(s: Scene) returns (w: World)
    requires s.Valid()
    ensures Reachable(w)
    ensures Stage(w, s.Memory(s.Rec()), s.Filed(), s.Disk(), None, UNTOUCHED, Polling(s.Ask(), 1, s.timeout), Idle)
  {
    w := StrangerAsks(s);
    w := Advance(w, 1, Fetch, Stay(w, Holding(s.Ask(), true, 0)));
    AttemptIsDenied(s, w, true);
    w := Advance(w, 1, Attempt, Stay(w, Filing(s.Ask())));
    assert w.desk.Mint(s.name, Some(s.stranger), None) == s.Filed();
    w := Advance(w, 1, File, Stay(w, Daemon.Filed(s.Ask(), 1)).(desk := s.Filed()));
    w := Advance(w, 1, SetDeadline, Stay(w, Polling(s.Ask(), 1, s.timeout)));
  }

  /** Grant-forever has the lock and has changed the record. */
  lemma ForeverMarks(s: Scene) returns (w: World)
    requires s.Valid()
    ensures Reachable(w)
    ensures Stage(w, s.Memory(Whitelisted(s.Rec(), s.stranger, None)), s.Filed(), s.Disk(), Some(2),
      UNTOUCHED.Touch(s.name),
      Polling(s.Ask(), 1, s.timeout), Marked(1, s.name, s.stranger, true, None))
  {
    w := StrangerPolls(s);
    w := Advance(w, 2, StartOrder(ForeverOrder(1)), Stay(w, Waiting(ForeverOrder(1))));
    w := Advance(w, 2, Acquire, Stay(w, Inside(ForeverOrder(1))).(holder := Some(2)));
    WhitelistTurn(s, w);
    w := Advance(w, 2, Act, TurnOf(w, 2, Inside(ForeverOrder(1)), Act));
  }

  lemma GiveUpTurn(w: World, pc: PC)
    requires pc.Marked? && pc.changed && pc.id !in w.desk.pending
    ensures pc.seen == None ==>
      Ready(w, pc, CheckExpiry) && TurnOf(w, 2, pc, CheckExpiry) == Stay(w, pc.(seen := Some(false)))
    ensures pc.seen == Some(false) ==>
      && Ready(w, pc, Settle)
      && TurnOf(w, 2, pc, Settle) == Leave(w, Idle).(past := w.past.(lost := w.past.lost + {pc.name}))
  {
  }

  /**
   * Grant-forever changes the record, the operator denies the pending, grant-forever gives up without
   * persisting: nothing is under way, and yet memory is ahead of the disk.
   */
  lemma FailedForeverLeavesMemoryAhead(s: Scene) returns (w: World)
    requires s.Valid()
    ensures Reachable(w) && Quiescent(w) && !Agrees(w.mem, w.disk, s.name)
  {
    w := ForeverGivesUp(s);
    QuiescentDiskIsMemory(w, s.name);
  }

  lemma ForeverGivesUp(s: Scene) returns (w: World)
    requires s.Valid()
    ensures Reachable(w) && Quiescent(w) && s.name in w.past.lost
  {
    w := DeniedInBetween(s);
    w := LooksAndGivesUp(w, Marked(1, s.name, s.stranger, true, None));
  }

  lemma DeniedDesk(s: Scene)
    ensures 1 !in AtDesk(s.Filed(), DenyOnce(1)).pending
  {
  }

  lemma DeniedInBetween(s: Scene) returns (w: World)
    requires s.Valid()
    ensures Reachable(w) && 1 !in w.desk.pending
    ensures Stage(w, w.mem, w.desk, w.disk, w.holder, w.past,
      Polling(s.Ask(), 1, s.timeout), Marked(1, s.name, s.stranger, true, None))
  {
    DeniedDesk(s);
    w := ForeverMarks(s);
    w := Operate(w, DenyOnce(1));
  }

  lemma LooksAndGivesUp(w: World, pc: PC) returns (v: World)
    requires Reachable(w) && pc.Marked? && pc.changed && pc.seen == None && pc.id !in w.desk.pending
    requires Stage(w, w.mem, w.desk, w.disk, w.holder, w.past, At(w, 1), pc) && !At(w, 1).Owing?
    ensures Reachable(v) && Quiescent(v) && pc.name in v.past.lost
  {
    var looked := pc.(seen := Some(false));
    GiveUpTurn(w, pc);
    v := Advance(w, 2, CheckExpiry, Stay(w, looked));
    GiveUpTurn(v, looked);
    var past := v.past.(lost := v.past.lost + {pc.name});
    v := Advance(v, 2, Settle, Leave(v, Idle).(past := past));
    StageQuiescent(v, past);
  }

  lemma StageQuiescent(w: World, past: Past)
    requires Stage(w, w.mem, w.desk, w.disk, None, past, At(w, 1), Idle) && !At(w, 1).Owing?
    ensures Quiescent(w)
  {
    forall t: nat ensures !At(w, t).Owing? {
      assert t != 1 && t != 2 ==> At(w, t).Idle?;
    }
  }

  lemma WhitelistTurn(s: Scene, w: World)
    requires s.Valid() && w.mem == s.Memory(s.Rec()) && w.desk == s.Filed() && w.past == UNTOUCHED
    ensures Ready(w, Inside(ForeverOrder(1)), Act)
    ensures
      TurnOf(w, 2, Inside(ForeverOrder(1)), Act) ==
      Turn(s.Memory(Whitelisted(s.Rec(), s.stranger, None)), w.desk, w.disk, w.holder, UNTOUCHED.Touch(s.name),
        Marked(1, s.name, s.stranger, true, None))
  {
    assert w.mem.Has(s.name) && w.mem.Get(s.name) == s.Rec();
    assert !s.Rec().unlimited && Whitelisted(s.Rec(), s.stranger, None).unlimited;
    var after := Whitelisted(s.Rec(), s.stranger, None);
    assert w.mem.Set(s.name, after) == s.Memory(after);
  }

  lemma TakeTurn(s: Scene, w: World)
    requires s.Valid() && w.mem == s.Memory(s.Rec())
    ensures Ready(w, Inside(TakeOrder(s.Ask(), 1)), Act)
    ensures
      TurnOf(w, 1, Inside(TakeOrder(s.Ask(), 1)), Act) ==
      Turn(s.Memory(AfterManual(s.Rec(), 7, 0, 1)), w.desk.Take(1), w.disk, w.holder,
        w.past.Admit(ByHand(s.name, 7, w.desk.WinOf(1))),
        Walking(TakeErrand(s.Ask(), 1), {s.name}, {s.name}, map[], false))
  {
    assert s.Memory(AfterManual(s.Rec(), 7, 0, 1)).dir.Keys == {s.name};
    assert w.mem.Has(s.name) && w.mem.Get(s.name) == s.Rec();
    assert w.mem.Set(s.name, AfterManual(s.Rec(), 7, 0, 1)) == s.Memory(AfterManual(s.Rec(), 7, 0, 1));
  }

  lemma WinningTurn(w: World, pc: PC)
    requires pc.Polling? && w.desk.Alive(pc.id) && w.desk.pending[pc.id].granted
    ensures Ready(w, pc, Poll)
    ensures TurnOf(w, 1, pc, Poll) == Stay(w, Won(pc.ask, pc.id)).(desk := w.desk.Award(pc.id))
  {
  }

  lemma GrantedDesk(s: Scene)
    requires s.Valid()
    ensures var d := AtDesk(s.Filed(), GrantOnce(1)); d.Alive(1) && d.pending[1].granted
    ensures 1 in AtDesk(AtDesk(s.Filed(), GrantOnce(1)).Award(1), DenyOnce(1)).denials
  {
  }

  /** The asker has seen the grant; a deny arrives before it removes its pending. */
  lemma DeniedTooLate(s: Scene) returns (w: World)
    requires s.Valid()
    ensures Reachable(w) && 1 in w.desk.denials
    ensures Stage(w, s.Memory(s.Rec()), w.desk, s.Disk(), None, UNTOUCHED, Won(s.Ask(), 1), Idle)
  {
    w := StrangerPolls(s);
    GrantedDesk(s);
    w := Operate(w, GrantOnce(1));
    WinningTurn(w, At(w, 1));
    w := Advance(w, 1, Poll, TurnOf(w, 1, At(w, 1), Poll));
    w := Operate(w, DenyOnce(1));
  }

  lemma CollectTurn(w: World, ask: Ask)
    ensures Ready(w, Won(ask, 1), Collect)
    ensures TurnOf(w, 1, Won(ask, 1), Collect) ==
      Stay(w, Waiting(TakeOrder(ask, 1))).(desk := w.desk.(pending := w.desk.pending - {1}))
    ensures w.holder.None? ==>
      && Ready(w, Waiting(TakeOrder(ask, 1)), Acquire)
      && TurnOf(w, 1, Waiting(TakeOrder(ask, 1)), Acquire) == Stay(w, Inside(TakeOrder(ask, 1))).(holder := Some(1))
  {
  }

  lemma CollectorEnters(s: Scene) returns (w: World)
    requires s.Valid()
    ensures Reachable(w) && 1 in w.desk.denials
    ensures Stage(w, s.Memory(s.Rec()), w.desk, s.Disk(), Some(1), UNTOUCHED, Inside(TakeOrder(s.Ask(), 1)), Idle)
  {
    w := DeniedTooLate(s);
    CollectTurn(w, s.Ask());
    w := Advance(w, 1, Collect, TurnOf(w, 1, At(w, 1), Collect));
    CollectTurn(w, s.Ask());
    w := Advance(w, 1, Acquire, TurnOf(w, 1, At(w, 1), Acquire));
  }

  lemma TakenTurn(s: Scene, w: World) returns (turn: Turn)
    requires s.Valid() && w.mem == s.Memory(s.Rec()) && At(w, 1) == Inside(TakeOrder(s.Ask(), 1))
    ensures Ready(w, At(w, 1), Act) && TurnOf(w, 1, At(w, 1), Act) == turn
    ensures turn == Turn(s.Memory(AfterManual(s.Rec(), 7, 0, 1)), w.desk.Take(1), w.disk, w.holder,
        w.past.Admit(ByHand(s.name, 7, w.desk.WinOf(1))),
      Walking(TakeErrand(s.Ask(), 1), {s.name}, {s.name}, map[], false))
  {
    TakeTurn(s, w);
    turn := TurnOf(w, 1, At(w, 1), Act);
  }

  /** All the same, the asker collects its grant and starts to persist the read. */
  lemma CollectedAnyway(s: Scene) returns (w: World)
    requires s.Valid()
    ensures Reachable(w) && 1 in w.desk.denials
    ensures Stage(w, s.Memory(AfterManual(s.Rec(), 7, 0, 1)), w.desk, s.Disk(), Some(1), w.past,
      Walking(TakeErrand(s.Ask(), 1), {s.name}, {s.name}, map[], false), Idle)
  {
    w := CollectorEnters(s);
    var turn := TakenTurn(s, w);
    w := Advance(w, 1, Act, turn);
  }

  lemma WalkTurns(w: World, name: string, rec: Rec, errand: Errand)
    requires w.mem.Has(name) && w.mem.Get(name) == rec
    ensures
      var start := Walking(errand, {name}, {name}, map[], false);
      && Ready(w, start, Visit(name))
      && TurnOf(w, 1, start, Visit(name)) == Stay(w, Walking(errand, {name}, {}, map[name := Project(rec)], false))
    ensures
      var done := Walking(errand, {name}, {}, map[name := Project(rec)], false);
      Ready(w, done, Land) && TurnOf(w, 1, done, Land).desk == w.desk && TurnOf(w, 1, done, Land).pc == Landed(errand)
  {
    assert {name} - {name} == {};
  }

  lemma ServeTurn(w: World, ask: Ask)
    ensures Ready(w, Landed(TakeErrand(ask, 1)), Finish)
    ensures TurnOf(w, 1, Landed(TakeErrand(ask, 1)), Finish).desk == w.desk.Conclude(1, Served)
  {
  }

  /** A deny that comes after the asker has seen the grant succeeds and changes nothing: the ask is allowed. */
  lemma DenyAfterTheDecidingPoll(s: Scene) returns (w: World)
    requires s.Valid()
    ensures Reachable(w) && 1 in w.desk.denials && 1 in w.desk.verdicts && w.desk.verdicts[1].Served?
  {
    w := CollectedAnyway(s);
    WalkTurns(w, s.name, AfterManual(s.Rec(), 7, 0, 1), TakeErrand(s.Ask(), 1));
    w := Advance(w, 1, Visit(s.name), TurnOf(w, 1, At(w, 1), Visit(s.name)));
    WalkTurns(w, s.name, AfterManual(s.Rec(), 7, 0, 1), TakeErrand(s.Ask(), 1));
    w := Advance(w, 1, Land, TurnOf(w, 1, At(w, 1), Land));
    ServeTurn(w, s.Ask());
    w := Advance(w, 1, Finish, TurnOf(w, 1, At(w, 1), Finish));
    assert w.desk.verdicts[1].Served?;
  }

  lemma LateTurns(w: World, ask: Ask, id: nat, deadline: nat)
    requires !w.desk.Alive(id) && w.desk.now <= deadline
    ensures Ready(w, Polling(ask, id, deadline), Poll)
    ensures TurnOf(w, 1, Polling(ask, id, deadline), Poll) == Stay(w, Checking(ask, id, deadline))
    ensures Ready(w, Checking(ask, id, deadline), CheckDeadline)
    ensures TurnOf(w, 1, Checking(ask, id, deadline), CheckDeadline) == Stay(w, Doubting(ask, id, deadline))
    ensures Ready(w, Doubting(ask, id, deadline), CheckDenied)
    ensures TurnOf(w, 1, Doubting(ask, id, deadline), CheckDenied).desk == w.desk.Conclude(id, TurnedAway)
  {
  }

  lemma LateDesk(s: Scene)
    requires s.Valid()
    ensures var d := AtDesk(s.Filed(), Tick(s.timeout)); !d.Alive(1) && d.now == s.timeout && d.denials == {}
  {
  }

  /** Looks between the expiry and the deadline answer "denied" though no operator denied anything. */
  lemma ExpiryReportedAsDenial(s: Scene) returns (w: World)
    requires s.Valid()
    ensures Reachable(w) && w.desk.denials == {} && 1 in w.desk.verdicts && w.desk.verdicts[1].TurnedAway?
  {
    w := StrangerPolls(s);
    LateDesk(s);
    w := Operate(w, Tick(s.timeout));
    w := LateRound(w, s.Ask(), 1, s.timeout);
  }

  lemma LateRound(w: World, ask: Ask, id: nat, deadline: nat) returns (v: World)
    requires Reachable(w) && !w.desk.Alive(id) && w.desk.now <= deadline
    requires Stage(w, w.mem, w.desk, w.disk, w.holder, w.past, Polling(ask, id, deadline), At(w, 2))
    ensures Reachable(v) && v.desk == w.desk.Conclude(id, TurnedAway)
  {
    LateTurns(w, ask, id, deadline);
    v := Advance(w, 1, Poll, Stay(w, Checking(ask, id, deadline)));
    LateTurns(v, ask, id, deadline);
    v := Advance(v, 1, CheckDeadline, Stay(v, Doubting(ask, id, deadline)));
    LateTurns(v, ask, id, deadline);
    v := Advance(v, 1, CheckDenied, TurnOf(v, 1, Doubting(ask, id, deadline), CheckDenied));
  }
}
