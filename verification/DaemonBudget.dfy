/** The one-read budget over whole runs: a secret answers its automatic first grant at most once, crashes included. */
module DaemonBudget {
  import opened Text
  import opened Records
  import opened PolicyStore
  import opened Daemon
  import opened DaemonShape

  /** A thread that has spent the budget of `n` and not yet answered for it. */
  predicate Claims(pc: PC, n: string) {
    match pc
    case Owing(ask, _, release) => release.first && ask.name == n
    case Walking(ReadErrand(ask, _, release), _, _, _, _) => release.first && ask.name == n
    case Landed(ReadErrand(ask, _, release)) => release.first && ask.name == n
    case _ => false
  }

  predicate Spent(mem: Memory, n: string) {
    mem.Has(n) && mem.Get(n).count > 0
  }

  predicate SpentOnDisk(disk: Disk, n: string) {
    n in disk.secrets && disk.secrets[n].count > 0
  }

  /** No whitelisting lifts the limit on `n`, in memory, on disk, or in a snapshot on its way there. */
  ghost predicate Limited(w: World, n: string) {
    && (w.mem.Has(n) ==> !w.mem.Get(n).unlimited)
    && (n in w.disk.secrets ==> !w.disk.secrets[n].unlimited)
    && (forall t: nat :: At(w, t).Walking? && n in At(w, t).snap ==> !At(w, t).snap[n].unlimited)
  }

  /** A reader of `n` holds the record everybody else sees. */
  ghost predicate CurrentHolders(w: World, n: string) {
    forall t: nat :: At(w, t).Holding? && At(w, t).ask.name == n ==> n in w.mem.dir && w.mem.dir[n] == At(w, t).gen
  }

  /** Whoever claims is alone, unanswered so far, and has spent the budget wherever it has written it. */
  ghost predicate SoleClaim(w: World, n: string) {
    && (forall t: nat, u: nat :: Claims(At(w, t), n) && Claims(At(w, u), n) ==> t == u)
    && (forall t: nat :: Claims(At(w, t), n) ==>
         && w.past.answered[n] == 0
         && Spent(w.mem, n)
         && (At(w, t).Walking? && n in At(w, t).snap ==> At(w, t).snap[n].count > 0)
         && (At(w, t).Landed? ==> SpentOnDisk(w.disk, n)))
  }

  /** An answer is on disk, in memory, and in every snapshot that could replace the file. */
  ghost predicate AnswerKept(w: World, n: string) {
    && w.past.answered[n] <= 1
    && (w.past.answered[n] == 1 ==>
         && Spent(w.mem, n)
         && SpentOnDisk(w.disk, n)
         && (forall t: nat :: At(w, t).Walking? && n in At(w, t).snap ==> At(w, t).snap[n].count > 0))
  }

  ghost predicate Budgeted(w: World, n: string) {
    n !in w.past.touched ==> Limited(w, n) && CurrentHolders(w, n) && SoleClaim(w, n) && AnswerKept(w, n)
  }

  lemma BootBudgeted(file: StoreFile, sizes: HostSizes, timeout: nat, now: nat, n: string)
    ensures Budgeted(Boot(file, sizes, timeout, now), n)
  {
  }

  /** What every move does to a secret it does not touch: it is never unspent, never unlimited, never replaced. */
  predicate Kept(mem: Memory, next: Memory, n: string) {
    && (mem.Has(n) ==>
         && next.Has(n) && next.dir[n] == mem.dir[n]
         && (mem.Get(n).count > 0 ==> next.Get(n).count > 0)
         && (!mem.Get(n).unlimited ==> !next.Get(n).unlimited))
    && (n !in mem.dir && next.Has(n) ==> !next.Get(n).unlimited)
  }

  lemma AddKeeps(w: World, name: string, host: string, size: Usize, hash: string, mode: nat, n: string)
    requires Ready(w, Inside(AddOrder(name, host, size, hash, mode)), Act) && RefsKept(w.mem)
    ensures Kept(w.mem, DoAct(w, AddOrder(name, host, size, hash, mode)).mem, n)
  {
    if name !in w.mem.dir {
      CreateRefs(w.mem, name, Created(host, size, hash, mode));
    }
  }

  lemma ForeverKeeps(w: World, id: nat, n: string)
    requires Ready(w, Inside(ForeverOrder(id)), Act) && RefsKept(w.mem) && n !in DoForever(w, id).past.touched
    ensures Kept(w.mem, DoForever(w, id).mem, n) && n !in w.past.touched
  {
  }

  lemma ActKeeps(w: World, order: Order, n: string)
    requires Ready(w, Inside(order), Act) && RefsKept(w.mem) && n !in DoAct(w, order).past.touched
    ensures Kept(w.mem, DoAct(w, order).mem, n) && n !in w.past.touched
  {
    match order
    case AddOrder(name, host, size, hash, mode) => AddKeeps(w, name, host, size, hash, mode, n);
    case ForeverOrder(id) => ForeverKeeps(w, id, n);
    case _ =>
  }

  lemma AttemptKeeps(w: World, pc: PC, n: string)
    requires Ready(w, pc, Attempt) && RefsKept(w.mem)
    ensures Kept(w.mem, DoAttempt(w, pc).mem, n) && DoAttempt(w, pc).past.(admitted := w.past.admitted) == w.past
    ensures Claims(DoAttempt(w, pc).pc, n) ==>
      var rec := w.mem.heap[(pc.ask.name, pc.gen)];
      && pc.ask.name == n && (rec.count == 0 || rec.unlimited)
      && DoAttempt(w, pc).mem.heap[(n, pc.gen)].count > 0
  {
  }

  lemma TurnKeeps(w: World, t: nat, pc: PC, move: Move, n: string)
    requires Ready(w, pc, move) && RefsKept(w.mem) && n !in TurnOf(w, t, pc, move).past.touched
    ensures Kept(w.mem, TurnOf(w, t, pc, move).mem, n) && n !in w.past.touched
  {
    match move
    case Attempt => AttemptKeeps(w, pc, n);
    case Act => ActKeeps(w, pc.order, n);
    case _ =>
  }

  /** Where claims and answers come from. */
  lemma TurnClaims(w: World, t: nat, pc: PC, move: Move, n: string)
    requires Ready(w, pc, move)
    ensures
      var turn := TurnOf(w, t, pc, move);
      && (Claims(turn.pc, n) ==> Claims(pc, n) || move.Attempt?)
      && (turn.past.answered[n] == w.past.answered[n] ||
          (turn.past.answered[n] == w.past.answered[n] + 1 && move.Finish? && Claims(pc, n)))
  {
    if move.Act? {
      ActFacts(w, pc.order);
    }
  }

  lemma MoveLimited(w: World, t: nat, move: Move, n: string)
    requires Shape(w) && Ready(w, At(w, t), move) && Limited(w, n)
    requires n !in TurnOf(w, t, At(w, t), move).past.touched
    ensures Limited(Moved(w, t, TurnOf(w, t, At(w, t), move)), n)
  {
    var turn := TurnOf(w, t, At(w, t), move);
    var v := Moved(w, t, turn);
    TurnKeeps(w, t, At(w, t), move, n);
    TurnClaims(w, t, At(w, t), move, n);
    TurnSnaps(w, t, At(w, t), move, n);
    forall u: nat | At(v, u).Walking? && n in At(v, u).snap
      ensures !At(v, u).snap[n].unlimited
    {
      OtherStands(w, t, turn, u);
    }
  }

  lemma MoveHolders(w: World, t: nat, move: Move, n: string)
    requires Shape(w) && Ready(w, At(w, t), move) && CurrentHolders(w, n)
    requires n !in TurnOf(w, t, At(w, t), move).past.touched
    ensures CurrentHolders(Moved(w, t, TurnOf(w, t, At(w, t), move)), n)
  {
    var pc := At(w, t);
    var turn := TurnOf(w, t, pc, move);
    var v := Moved(w, t, turn);
    TurnKeeps(w, t, pc, move, n);
    forall u: nat | At(v, u).Holding? && At(v, u).ask.name == n
      ensures n in v.mem.dir && v.mem.dir[n] == At(v, u).gen
    {
      OtherStands(w, t, turn, u);
      if u == t {
        assert pc.Fetching? && turn.mem == w.mem;
      } else {
        assert At(w, u).Holding?;
      }
    }
  }

  lemma MoveSoleClaim(w: World, t: nat, move: Move, n: string)
    requires Shape(w) && Ready(w, At(w, t), move) && Budgeted(w, n)
    requires n !in TurnOf(w, t, At(w, t), move).past.touched
    ensures SoleClaim(Moved(w, t, TurnOf(w, t, At(w, t), move)), n)
  {
    var pc := At(w, t);
    var turn := TurnOf(w, t, pc, move);
    var v := Moved(w, t, turn);
    TurnKeeps(w, t, pc, move, n);
    TurnClaims(w, t, pc, move, n);
    TurnSnaps(w, t, pc, move, n);
    if Claims(turn.pc, n) && !Claims(pc, n) {
      // a new claim: the record was unspent, so nobody else can have one
      AttemptKeeps(w, pc, n);
      assert w.mem.dir[n] == pc.gen;
      assert !Spent(w.mem, n);
    }
    forall u: nat | Claims(At(v, u), n)
      ensures v.past.answered[n] == 0 && Spent(v.mem, n)
      ensures At(v, u).Walking? && n in At(v, u).snap ==> At(v, u).snap[n].count > 0
      ensures At(v, u).Landed? ==> SpentOnDisk(v.disk, n)
      ensures u == t || Claims(At(w, u), n)
    {
      OtherStands(w, t, turn, u);
      assert u != t ==> Claims(At(w, u), n);
      if u != t && At(w, u).Landed? {
        assert w.holder == Some(u);
      }
      if u == t && turn.pc.Landed? {
        assert n in w.mem.dir && n in pc.snap;
      }
    }
    forall u: nat, r: nat | Claims(At(v, u), n) && Claims(At(v, r), n)
      ensures u == r
    {
      OtherStands(w, t, turn, u);
      OtherStands(w, t, turn, r);
    }
  }

  lemma MoveAnswerKept(w: World, t: nat, move: Move, n: string)
    requires Shape(w) && Ready(w, At(w, t), move) && Budgeted(w, n)
    requires n !in TurnOf(w, t, At(w, t), move).past.touched
    ensures AnswerKept(Moved(w, t, TurnOf(w, t, At(w, t), move)), n)
  {
    var pc := At(w, t);
    var turn := TurnOf(w, t, pc, move);
    var v := Moved(w, t, turn);
    TurnKeeps(w, t, pc, move, n);
    TurnClaims(w, t, pc, move, n);
    TurnSnaps(w, t, pc, move, n);
    if v.past.answered[n] >= 1 {
      if move.Land? {
        assert n in w.mem.dir && n in pc.snap;
      }
      forall u: nat | At(v, u).Walking? && n in At(v, u).snap
        ensures At(v, u).snap[n].count > 0
      {
        OtherStands(w, t, turn, u);
        SoleHolder(w, t, u);
      }
    }
  }

  lemma StepBudgeted(w: World, s: Step, n: string)
    requires Shape(w) && Enabled(w, s) && Budgeted(w, n)
    ensures Budgeted(Apply(w, s), n)
  {
    var v := Apply(w, s);
    match s
    case Thread(t, move) =>
      if n !in v.past.touched {
        TurnKeeps(w, t, At(w, t), move, n);
        MoveLimited(w, t, move, n);
        MoveHolders(w, t, move, n);
        MoveSoleClaim(w, t, move, n);
        MoveAnswerKept(w, t, move, n);
      }
    case Observe(name, size) =>
      assert forall t: nat :: At(v, t) == At(w, t);
    case Operator(op) =>
      assert forall t: nat :: At(v, t) == At(w, t);
    case Crash(sizes) =>
      assert v.mem == BootMemory(w.disk, sizes);
  }

  lemma {:induction false} RunBudgeted(w: World, steps: seq<Step>, n: string)
    requires Shape(w) && Budgeted(w, n) && Legal(w, steps)
    ensures Budgeted(Result(w, steps), n)
    decreases |steps|
  {
    if steps != [] {
      StepShape(w, steps[0]);
      StepBudgeted(w, steps[0], n);
      RunBudgeted(Apply(w, steps[0]), steps[1..], n);
    }
  }

  /**
   * Over every interleaving of readers and operators, with a crash and reload at any step, a secret that
   * has not been reset, removed or grant-forevered has answered its automatic first grant at most once;
   * and from that answer on, the store holds a non-zero count for it.
   */
  lemma FirstGrantAtMostOnce(w: World, n: string)
    requires Reachable(w) && n !in w.past.touched
    ensures w.past.answered[n] <= 1
    ensures w.past.answered[n] == 1 ==> SpentOnDisk(w.disk, n) && Spent(w.mem, n)
  {
    var file, sizes, timeout, now, steps :| Run(file, sizes, timeout, now, steps, w);
    BootShape(file, sizes, timeout, now);
    BootBudgeted(file, sizes, timeout, now, n);
    RunBudgeted(Boot(file, sizes, timeout, now), steps, n);
  }
}
