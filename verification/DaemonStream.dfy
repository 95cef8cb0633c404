/** Forward-only reading over whole runs: no byte of a limited secret is answered twice, crashes included. */
module DaemonStream {
  import opened Text
  import opened Records
  import opened PolicyStore
  import opened Daemon
  import opened DaemonShape
  import opened DaemonBudget

  /** The bytes of `n` a thread has been granted and not yet answered with. The probe's are never answered. */
  function Claim(pc: PC, n: string): Option<Range> {
    match pc
    case Owing(ask, probe, release) => ClaimOf(ask, probe, release, n)
    case Walking(ReadErrand(ask, probe, release), _, _, _, _) => ClaimOf(ask, probe, release, n)
    case Landed(ReadErrand(ask, probe, release)) => ClaimOf(ask, probe, release, n)
    case _ => None
  }

  function ClaimOf(ask: Ask, probe: bool, release: Release, n: string): Option<Range> {
    if !probe && ask.name == n then Some(Bytes(Answer(ask, release))) else None
  }

  /** What was asked for of the file as it was when the read was granted. */
  function Bytes(answer: Answer): Range {
    Asked(answer.ask.offset, answer.ask.size, answer.release.fileSize)
  }

  predicate Empty(r: Range) {
    r.hi <= r.lo
  }

  predicate Disjoint(r: Range, q: Range) {
    Empty(r) || Empty(q) || r.hi <= q.lo || q.hi <= r.lo
  }

  /** What was granted lies behind the stream, or the stream is gone. */
  predicate Behind(rec: Rec, r: Range) {
    Empty(r) || r.hi <= rec.progress || Forgotten(rec)
  }

  predicate ServedOne(past: Past, n: string, i: nat) {
    i < |past.served| && past.served[i].ask.name == n
  }

  ghost predicate ServedSome(past: Past, n: string) {
    exists i: nat :: ServedOne(past, n, i)
  }

  /** All that has been granted of `n`, answered or not, is pairwise disjoint. */
  ghost predicate AllDisjoint(w: World, n: string) {
    && (forall i: nat, j: nat :: i < j && ServedOne(w.past, n, i) && ServedOne(w.past, n, j) ==>
          Disjoint(Bytes(w.past.served[i]), Bytes(w.past.served[j])))
    && (forall t: nat, u: nat :: t != u && Claim(At(w, t), n).Some? && Claim(At(w, u), n).Some? ==>
          Disjoint(Claim(At(w, t), n).value, Claim(At(w, u), n).value))
    && (forall t: nat, i: nat :: Claim(At(w, t), n).Some? && ServedOne(w.past, n, i) ==>
          Disjoint(Claim(At(w, t), n).value, Bytes(w.past.served[i])))
  }

  /** A claim lies behind the stream and has spent the budget wherever it has written it. */
  predicate ClaimBacked(mem: Memory, disk: Disk, pc: PC, n: string) {
    Claim(pc, n).Some? ==>
      && Spent(mem, n) && Behind(mem.Get(n), Claim(pc, n).value)
      && (pc.Walking? && n in pc.snap ==> pc.snap[n].count > 0)
      && (pc.Landed? ==> SpentOnDisk(disk, n))
  }

  /** An answer lies behind the stream, and is on disk and in every snapshot that could replace the file. */
  ghost predicate AnswersBacked(w: World, n: string) {
    ServedSome(w.past, n) ==>
      && Spent(w.mem, n) && SpentOnDisk(w.disk, n)
      && (forall i: nat :: ServedOne(w.past, n, i) ==> Behind(w.mem.Get(n), Bytes(w.past.served[i])))
      && (forall t: nat :: At(w, t).Walking? && n in At(w, t).snap ==> At(w, t).snap[n].count > 0)
  }

  ghost predicate Streamed(w: World, n: string) {
    && (w.mem.Has(n) ==> Streamable(w.mem.Get(n)))
    && AllDisjoint(w, n) && AnswersBacked(w, n)
    && (forall t: nat :: ClaimBacked(w.mem, w.disk, At(w, t), n))
  }

  /** A secret without commands that start a new cycle, whose forgotten stream no manual grant has opened again. */
  predicate Plain(past: Past, n: string) {
    n !in past.touched && n !in past.reopened
  }

  // ── what a move does ───────────────────────────────────────────

  /** The stream of `n` only goes forward, and a forgotten one stays forgotten. */
  predicate Forward(mem: Memory, next: Memory, n: string) {
    && (mem.Has(n) && Streamable(mem.Get(n)) && !mem.Get(n).unlimited ==>
          && next.Has(n) && Streamable(next.Get(n))
          && (mem.Get(n).count > 0 ==> next.Get(n).count > 0)
          && mem.Get(n).progress <= next.Get(n).progress
          && (Forgotten(mem.Get(n)) ==> Forgotten(next.Get(n))))
    && (n !in mem.dir && next.Has(n) ==> Streamable(next.Get(n)))
  }

  lemma AttemptForward(w: World, pc: PC, n: string)
    requires Ready(w, pc, Attempt) && RefsKept(w.mem)
    ensures Forward(w.mem, DoAttempt(w, pc).mem, n) && DoAttempt(w, pc).past.(admitted := w.past.admitted) == w.past
  {
  }

  lemma AddForward(w: World, name: string, host: string, size: Usize, hash: string, mode: nat, n: string)
    requires Ready(w, Inside(AddOrder(name, host, size, hash, mode)), Act) && RefsKept(w.mem)
    ensures Forward(w.mem, DoAct(w, AddOrder(name, host, size, hash, mode)).mem, n)
  {
    if name !in w.mem.dir {
      CreateRefs(w.mem, name, Created(host, size, hash, mode));
    }
  }

  /** A manual grant moves the stream on, unless it opens a forgotten one. */
  lemma TakeForward(w: World, ask: Ask, id: nat, n: string)
    requires Ready(w, Inside(TakeOrder(ask, id)), Act) && RefsKept(w.mem)
    requires Plain(DoAct(w, TakeOrder(ask, id)).past, n)
    ensures Forward(w.mem, DoAct(w, TakeOrder(ask, id)).mem, n) && Plain(w.past, n)
  {
  }

  lemma ForeverForward(w: World, id: nat, n: string)
    requires Ready(w, Inside(ForeverOrder(id)), Act) && RefsKept(w.mem) && Plain(DoForever(w, id).past, n)
    ensures Forward(w.mem, DoForever(w, id).mem, n) && Plain(w.past, n)
  {
  }

  lemma ActForward(w: World, order: Order, n: string)
    requires Ready(w, Inside(order), Act) && RefsKept(w.mem) && Plain(DoAct(w, order).past, n)
    ensures Forward(w.mem, DoAct(w, order).mem, n) && Plain(w.past, n)
  {
    match order
    case AddOrder(name, host, size, hash, mode) => AddForward(w, name, host, size, hash, mode, n);
    case ForeverOrder(id) => ForeverForward(w, id, n);
    case TakeOrder(ask, id) => TakeForward(w, ask, id, n);
    case _ =>
  }

  lemma TurnForward(w: World, t: nat, pc: PC, move: Move, n: string)
    requires Ready(w, pc, move) && RefsKept(w.mem) && Plain(TurnOf(w, t, pc, move).past, n)
    ensures Forward(w.mem, TurnOf(w, t, pc, move).mem, n) && Plain(w.past, n)
  {
    match move
    case Attempt => AttemptForward(w, pc, n);
    case Act => ActForward(w, pc.order, n);
    case _ =>
  }

  /** A fresh claim begins where the stream stood, or is the first; the stream then stands behind it. */
  lemma AttemptClaims(w: World, pc: PC, n: string)
    requires Ready(w, pc, Attempt) && Claim(DoAttempt(w, pc).pc, n).Some?
    ensures
      var was, next := w.mem.heap[(pc.ask.name, pc.gen)], DoAttempt(w, pc).mem.heap[(pc.ask.name, pc.gen)];
      var r := Claim(DoAttempt(w, pc).pc, n).value;
      && pc.ask.name == n
      && (Streamable(was) && !was.unlimited ==>
            && next.count > 0 && r.hi <= next.progress && !Forgotten(was)
            && (was.count == 0 || was.progress <= r.lo))
  {
  }

  /** Otherwise claims only pass from debt to walk to answer, and what is answered was claimed. */
  lemma TurnClaim(w: World, t: nat, pc: PC, move: Move, n: string)
    requires Ready(w, pc, move)
    ensures
      var turn := TurnOf(w, t, pc, move);
      && (Claim(turn.pc, n).Some? && !move.Attempt? ==> Claim(turn.pc, n) == Claim(pc, n))
      && (Claim(turn.pc, n).Some? && move.Attempt? ==> turn.pc.Owing?)
  {
  }

  lemma FinishServed(w: World, errand: Errand, n: string)
    ensures
      var turn := DoFinish(w, errand);
      || turn.past.served == w.past.served
      || (&& Claim(turn.pc, n).None?
          && |turn.past.served| == |w.past.served| + 1 && turn.past.served[..|w.past.served|] == w.past.served
          && (ServedOne(turn.past, n, |w.past.served|) ==>
                Claim(Landed(errand), n) == Some(Bytes(turn.past.served[|w.past.served|]))))
  {
  }

  lemma TurnServed(w: World, t: nat, pc: PC, move: Move, n: string)
    requires Ready(w, pc, move)
    ensures
      var turn := TurnOf(w, t, pc, move);
      || turn.past.served == w.past.served
      || (&& move.Finish? && pc.Landed? && Claim(turn.pc, n).None?
          && |turn.past.served| == |w.past.served| + 1 && turn.past.served[..|w.past.served|] == w.past.served
          && (ServedOne(turn.past, n, |w.past.served|) ==>
                Claim(pc, n) == Some(Bytes(turn.past.served[|w.past.served|]))))
  {
    if move.Finish? {
      FinishServed(w, pc.errand, n);
    } else if move.Act? {
      ActFacts(w, pc.order);
    }
  }

  // ── moves ──────────────────────────────────────────────────────

  /** What every lemma below starts from. */
  ghost predicate Going(w: World, t: nat, move: Move, n: string) {
    && Shape(w) && Ready(w, At(w, t), move) && Budgeted(w, n) && Streamed(w, n)
    && Plain(TurnOf(w, t, At(w, t), move).past, n) && Plain(w.past, n)
  }

  lemma BehindStays(mem: Memory, next: Memory, n: string, r: Range)
    requires Forward(mem, next, n) && Spent(mem, n) && Streamable(mem.Get(n)) && !mem.Get(n).unlimited
    requires Behind(mem.Get(n), r)
    ensures Spent(next, n) && Behind(next.Get(n), r)
  {
  }

  /** A fresh claim is disjoint from everything behind the stream. */
  lemma FreshIsDisjoint(was: Rec, r: Range, q: Range)
    requires was.count > 0 && !Forgotten(was) && was.progress <= r.lo && Behind(was, q)
    ensures Disjoint(r, q)
  {
  }

  /** The mover's claim, if it has one, is backed. */
  lemma MoverBacked(w: World, t: nat, move: Move, n: string)
    requires Going(w, t, move, n)
    ensures
      var turn := TurnOf(w, t, At(w, t), move);
      ClaimBacked(turn.mem, turn.disk, turn.pc, n)
  {
    var pc := At(w, t);
    var turn := TurnOf(w, t, pc, move);
    TurnForward(w, t, pc, move, n);
    TurnClaim(w, t, pc, move, n);
    TurnSnaps(w, t, pc, move, n);
    if Claim(turn.pc, n).Some? {
      if move.Attempt? {
        AttemptClaims(w, pc, n);
        assert w.mem.dir[n] == pc.gen;
      } else {
        assert ClaimBacked(w.mem, w.disk, pc, n);
        BehindStays(w.mem, turn.mem, n, Claim(pc, n).value);
        if turn.pc.Landed? {
          assert n in w.mem.dir && n in pc.snap by {
            assert Fits(w.mem, pc);
          }
        }
      }
    }
  }

  lemma OtherBacked(w: World, t: nat, move: Move, n: string, u: nat)
    requires Going(w, t, move, n) && u != t
    ensures
      var turn := TurnOf(w, t, At(w, t), move);
      ClaimBacked(turn.mem, turn.disk, At(w, u), n)
  {
    var pc := At(w, t);
    var turn := TurnOf(w, t, pc, move);
    TurnForward(w, t, pc, move, n);
    TurnSnaps(w, t, pc, move, n);
    assert ClaimBacked(w.mem, w.disk, At(w, u), n);
    if Claim(At(w, u), n).Some? {
      BehindStays(w.mem, turn.mem, n, Claim(At(w, u), n).value);
      if At(w, u).Landed? {
        assert w.holder == Some(u);
      }
    }
  }

  /** Whoever has been served now had been served before, or was about to be. */
  lemma SomeWasBacked(w: World, t: nat, move: Move, n: string)
    requires Going(w, t, move, n) && ServedSome(TurnOf(w, t, At(w, t), move).past, n)
    ensures Spent(w.mem, n) && SpentOnDisk(w.disk, n)
    ensures ServedSome(w.past, n) || (move.Finish? && Claim(At(w, t), n).Some? && At(w, t).Landed?)
  {
    var turn := TurnOf(w, t, At(w, t), move);
    TurnServed(w, t, At(w, t), move, n);
    var i: nat :| ServedOne(turn.past, n, i);
    if i < |w.past.served| {
      assert ServedOne(w.past, n, i);
    } else {
      assert ClaimBacked(w.mem, w.disk, At(w, t), n);
    }
  }

  /** Everything answered stays behind the stream, which a new answer is too. */
  lemma AnswerBehind(w: World, t: nat, move: Move, n: string, i: nat)
    requires Going(w, t, move, n) && ServedOne(TurnOf(w, t, At(w, t), move).past, n, i)
    ensures
      var turn := TurnOf(w, t, At(w, t), move);
      Spent(turn.mem, n) && Behind(turn.mem.Get(n), Bytes(turn.past.served[i]))
  {
    var pc := At(w, t);
    var turn := TurnOf(w, t, pc, move);
    TurnForward(w, t, pc, move, n);
    TurnServed(w, t, pc, move, n);
    assert ClaimBacked(w.mem, w.disk, pc, n);
    if i < |w.past.served| {
      assert ServedOne(w.past, n, i) && turn.past.served[i] == w.past.served[i];
      BehindStays(w.mem, turn.mem, n, Bytes(w.past.served[i]));
    } else {
      BehindStays(w.mem, turn.mem, n, Claim(pc, n).value);
    }
  }

  /** Whatever has been answered stays spent, on disk and in every snapshot. */
  lemma AnswersOnDisk(w: World, t: nat, move: Move, n: string)
    requires Going(w, t, move, n) && ServedSome(TurnOf(w, t, At(w, t), move).past, n)
    ensures SpentOnDisk(TurnOf(w, t, At(w, t), move).disk, n)
  {
    var pc := At(w, t);
    TurnSnaps(w, t, pc, move, n);
    SomeWasBacked(w, t, move, n);
    assert ClaimBacked(w.mem, w.disk, pc, n);
    if move.Land? {
      assert n in w.mem.dir && n in pc.snap by {
        assert Fits(w.mem, pc);
      }
    }
  }

  lemma AnswersInSnap(w: World, t: nat, move: Move, n: string, u: nat)
    requires Going(w, t, move, n) && ServedSome(TurnOf(w, t, At(w, t), move).past, n)
    ensures
      var pc := At(Moved(w, t, TurnOf(w, t, At(w, t), move)), u);
      pc.Walking? && n in pc.snap ==> pc.snap[n].count > 0
  {
    var turn := TurnOf(w, t, At(w, t), move);
    TurnSnaps(w, t, At(w, t), move, n);
    SomeWasBacked(w, t, move, n);
    OtherStands(w, t, turn, u);
    SoleHolder(w, t, u);
  }

  lemma BackedAgain(v: World, n: string)
    requires ServedSome(v.past, n) ==> SpentOnDisk(v.disk, n)
    requires forall i: nat :: ServedOne(v.past, n, i) ==>
      Spent(v.mem, n) && Behind(v.mem.Get(n), Bytes(v.past.served[i]))
    requires ServedSome(v.past, n) ==>
      forall u: nat :: At(v, u).Walking? && n in At(v, u).snap ==> At(v, u).snap[n].count > 0
    ensures AnswersBacked(v, n)
  {
  }

  lemma MoveAnswers(w: World, t: nat, move: Move, n: string)
    requires Going(w, t, move, n)
    ensures AnswersBacked(Moved(w, t, TurnOf(w, t, At(w, t), move)), n)
  {
    var v := Moved(w, t, TurnOf(w, t, At(w, t), move));
    forall i: nat | ServedOne(v.past, n, i) ensures Spent(v.mem, n) && Behind(v.mem.Get(n), Bytes(v.past.served[i])) {
      AnswerBehind(w, t, move, n, i);
    }
    if ServedSome(v.past, n) {
      AnswersOnDisk(w, t, move, n);
      forall u: nat | At(v, u).Walking? && n in At(v, u).snap ensures At(v, u).snap[n].count > 0 {
        AnswersInSnap(w, t, move, n, u);
      }
    }
    BackedAgain(v, n);
  }

  /** The mover's claim is disjoint from everybody else's. */
  lemma ClaimsApart(w: World, t: nat, move: Move, n: string, u: nat)
    requires Going(w, t, move, n) && u != t
    ensures
      var mine, other := Claim(TurnOf(w, t, At(w, t), move).pc, n), Claim(At(w, u), n);
      mine.Some? && other.Some? ==> Disjoint(mine.value, other.value)
  {
    var pc := At(w, t);
    TurnClaim(w, t, pc, move, n);
    var mine, other := Claim(TurnOf(w, t, pc, move).pc, n), Claim(At(w, u), n);
    if mine.Some? && other.Some? && move.Attempt? {
      AttemptClaims(w, pc, n);
      assert w.mem.dir[n] == pc.gen && ClaimBacked(w.mem, w.disk, At(w, u), n);
      FreshIsDisjoint(w.mem.Get(n), mine.value, other.value);
    }
  }

  /** And from everything answered. */
  lemma ClaimFromServed(w: World, t: nat, move: Move, n: string, i: nat)
    requires Going(w, t, move, n) && ServedOne(w.past, n, i)
    ensures
      var mine := Claim(TurnOf(w, t, At(w, t), move).pc, n);
      mine.Some? ==> Disjoint(mine.value, Bytes(w.past.served[i]))
  {
    var pc := At(w, t);
    TurnClaim(w, t, pc, move, n);
    var mine := Claim(TurnOf(w, t, pc, move).pc, n);
    if mine.Some? && move.Attempt? {
      AttemptClaims(w, pc, n);
      assert w.mem.dir[n] == pc.gen && ServedSome(w.past, n);
      FreshIsDisjoint(w.mem.Get(n), mine.value, Bytes(w.past.served[i]));
    }
  }

  lemma MoveClaimsDisjoint(w: World, t: nat, move: Move, n: string, u: nat, r: nat)
    requires Going(w, t, move, n) && u != r
    ensures
      var v := Moved(w, t, TurnOf(w, t, At(w, t), move));
      Claim(At(v, u), n).Some? && Claim(At(v, r), n).Some? ==>
        Disjoint(Claim(At(v, u), n).value, Claim(At(v, r), n).value)
  {
    var turn := TurnOf(w, t, At(w, t), move);
    OtherStands(w, t, turn, u);
    OtherStands(w, t, turn, r);
    if u == t {
      ClaimsApart(w, t, move, n, r);
    } else if r == t {
      ClaimsApart(w, t, move, n, u);
    }
  }

  lemma MoveServedDisjoint(w: World, t: nat, move: Move, n: string, u: nat, i: nat)
    requires Going(w, t, move, n)
    ensures
      var v := Moved(w, t, TurnOf(w, t, At(w, t), move));
      Claim(At(v, u), n).Some? && ServedOne(v.past, n, i) ==>
        Disjoint(Claim(At(v, u), n).value, Bytes(v.past.served[i]))
  {
    var turn := TurnOf(w, t, At(w, t), move);
    OtherStands(w, t, turn, u);
    TurnServed(w, t, At(w, t), move, n);
    if ServedOne(turn.past, n, i) {
      if i < |w.past.served| {
        assert ServedOne(w.past, n, i) && turn.past.served[i] == w.past.served[i];
        if u == t {
          ClaimFromServed(w, t, move, n, i);
        }
      }
    }
  }

  lemma MoveAnswersDisjoint(w: World, t: nat, move: Move, n: string, i: nat, j: nat)
    requires Going(w, t, move, n) && i < j
    ensures
      var past := TurnOf(w, t, At(w, t), move).past;
      ServedOne(past, n, i) && ServedOne(past, n, j) ==> Disjoint(Bytes(past.served[i]), Bytes(past.served[j]))
  {
    var turn := TurnOf(w, t, At(w, t), move);
    TurnServed(w, t, At(w, t), move, n);
    if ServedOne(turn.past, n, i) && ServedOne(turn.past, n, j) {
      assert i < |w.past.served| && ServedOne(w.past, n, i) && turn.past.served[i] == w.past.served[i];
      if j < |w.past.served| {
        assert ServedOne(w.past, n, j) && turn.past.served[j] == w.past.served[j];
      } else {
        assert Claim(At(w, t), n) == Some(Bytes(turn.past.served[j]));
      }
    }
  }

  lemma MoveDisjoint(w: World, t: nat, move: Move, n: string)
    requires Going(w, t, move, n)
    ensures AllDisjoint(Moved(w, t, TurnOf(w, t, At(w, t), move)), n)
  {
    var v := Moved(w, t, TurnOf(w, t, At(w, t), move));
    forall i: nat, j: nat | i < j && ServedOne(v.past, n, i) && ServedOne(v.past, n, j)
      ensures Disjoint(Bytes(v.past.served[i]), Bytes(v.past.served[j]))
    {
      MoveAnswersDisjoint(w, t, move, n, i, j);
    }
    forall u: nat, r: nat | u != r && Claim(At(v, u), n).Some? && Claim(At(v, r), n).Some?
      ensures Disjoint(Claim(At(v, u), n).value, Claim(At(v, r), n).value)
    {
      MoveClaimsDisjoint(w, t, move, n, u, r);
    }
    forall u: nat, i: nat | Claim(At(v, u), n).Some? && ServedOne(v.past, n, i)
      ensures Disjoint(Claim(At(v, u), n).value, Bytes(v.past.served[i]))
    {
      MoveServedDisjoint(w, t, move, n, u, i);
    }
  }

  lemma MoveStreamed(w: World, t: nat, move: Move, n: string)
    requires Going(w, t, move, n)
    ensures Streamed(Moved(w, t, TurnOf(w, t, At(w, t), move)), n)
  {
    var turn := TurnOf(w, t, At(w, t), move);
    var v := Moved(w, t, turn);
    TurnForward(w, t, At(w, t), move, n);
    MoveDisjoint(w, t, move, n);
    MoveAnswers(w, t, move, n);
    forall u: nat ensures ClaimBacked(v.mem, v.disk, At(v, u), n) {
      OtherStands(w, t, turn, u);
      if u == t {
        MoverBacked(w, t, move, n);
      } else {
        OtherBacked(w, t, move, n, u);
      }
    }
  }

  // ── runs ───────────────────────────────────────────────────────

  ghost predicate Flowing(w: World, n: string) {
    Plain(w.past, n) ==> Streamed(w, n)
  }

  /** With nobody reading, what was answered need only be disjoint, spent, and behind a forgotten stream. */
  lemma StreamedAtRest(w: World, n: string)
    requires w.threads == map[] && (w.mem.Has(n) ==> Streamable(w.mem.Get(n)))
    requires ServedSome(w.past, n) ==> w.mem.Has(n) && Forgotten(w.mem.Get(n)) && SpentOnDisk(w.disk, n)
    requires forall i: nat, j: nat :: i < j && ServedOne(w.past, n, i) && ServedOne(w.past, n, j) ==>
      Disjoint(Bytes(w.past.served[i]), Bytes(w.past.served[j]))
    ensures Streamed(w, n)
  {
    assert forall t: nat :: At(w, t) == Idle;
  }

  lemma RevivedStream(disk: Disk, sizes: HostSizes, n: string)
    requires BootMemory(disk, sizes).Has(n)
    ensures n in disk.secrets && Streamable(BootMemory(disk, sizes).Get(n))
    ensures disk.secrets[n].count > 0 ==> Forgotten(BootMemory(disk, sizes).Get(n))
  {
  }

  /** A restart forgets every claim and every stream; what was answered stays spent. */
  lemma CrashStreamed(w: World, sizes: HostSizes, n: string)
    requires Streamed(w, n)
    ensures Streamed(Crashed(w, sizes), n)
  {
    var v := Crashed(w, sizes);
    if v.mem.Has(n) {
      RevivedStream(w.disk, sizes, n);
    }
    if ServedSome(v.past, n) {
      var i: nat :| ServedOne(v.past, n, i);
      assert ServedOne(w.past, n, i);
      BootRefs(w.disk, sizes);
    }
    forall i: nat, j: nat | i < j && ServedOne(v.past, n, i) && ServedOne(v.past, n, j)
      ensures Disjoint(Bytes(v.past.served[i]), Bytes(v.past.served[j]))
    {
      assert ServedOne(w.past, n, i) && ServedOne(w.past, n, j);
    }
    StreamedAtRest(v, n);
  }

  lemma BootStreamed(file: StoreFile, sizes: HostSizes, timeout: nat, now: nat, n: string)
    ensures Streamed(Boot(file, sizes, timeout, now), n)
  {
    var w := Boot(file, sizes, timeout, now);
    if w.mem.Has(n) {
      RevivedStream(file.disk, sizes, n);
    }
    StreamedAtRest(w, n);
  }

  lemma ResizeStreamed(w: World, name: string, size: Usize, n: string)
    requires Shape(w) && Streamed(w, n) && w.mem.Has(name)
    ensures Streamed(Apply(w, Observe(name, size)), n)
  {
    var v := Apply(w, Observe(name, size));
    assert forall t: nat :: At(v, t) == At(w, t);
    if w.mem.Has(n) {
      assert v.mem.Get(n) == w.mem.Get(n).(size := v.mem.Get(n).size);
    }
    forall t: nat ensures ClaimBacked(v.mem, v.disk, At(v, t), n) {
      assert ClaimBacked(w.mem, w.disk, At(w, t), n);
    }
  }

  lemma StepFlowing(w: World, s: Step, n: string)
    requires Shape(w) && Enabled(w, s) && Budgeted(w, n) && Flowing(w, n)
    ensures Flowing(Apply(w, s), n)
  {
    var v := Apply(w, s);
    if Plain(v.past, n) {
      match s
      case Thread(t, move) =>
        TurnForward(w, t, At(w, t), move, n);
        MoveStreamed(w, t, move, n);
      case Observe(name, size) => ResizeStreamed(w, name, size, n);
      case Operator(op) =>
        assert forall t: nat :: At(v, t) == At(w, t);
        assert forall t: nat :: ClaimBacked(w.mem, w.disk, At(w, t), n) ==> ClaimBacked(v.mem, v.disk, At(v, t), n);
      case Crash(sizes) => CrashStreamed(w, sizes, n);
    }
  }

  lemma {:induction false} RunFlowing(w: World, steps: seq<Step>, n: string)
    requires Shape(w) && Budgeted(w, n) && Flowing(w, n) && Legal(w, steps)
    ensures Flowing(Result(w, steps), n)
    decreases |steps|
  {
    if steps != [] {
      StepShape(w, steps[0]);
      StepBudgeted(w, steps[0], n);
      StepFlowing(w, steps[0], n);
      RunFlowing(Apply(w, steps[0]), steps[1..], n);
    }
  }

  lemma AnswersDisjoint(w: World, n: string, i: nat, j: nat)
    requires Reachable(w) && Plain(w.past, n) && i < j && ServedOne(w.past, n, i) && ServedOne(w.past, n, j)
    ensures Disjoint(Bytes(w.past.served[i]), Bytes(w.past.served[j]))
  {
    var file, sizes, timeout, now, steps :| Run(file, sizes, timeout, now, steps, w);
    BootShape(file, sizes, timeout, now);
    BootBudgeted(file, sizes, timeout, now, n);
    BootStreamed(file, sizes, timeout, now, n);
    RunFlowing(Boot(file, sizes, timeout, now), steps, n);
  }

  /** The answer gave out byte `b`: it was asked for, and the file was that long when the read was granted. */
  predicate Gave(answer: Answer, b: nat) {
    Asks(answer.ask.offset, answer.ask.size, answer.release.fileSize, b)
  }

  /**
   * Over every interleaving of readers and operators, with a crash and reload at any step, no two answers to reads
   * of a secret give out the same byte, whatever manual grants come between, as long as it has not been reset,
   * removed or grant-forevered, and no manual grant has opened it again after a restart that found its budget spent.
   */
  lemma NoByteAnsweredTwice(w: World, n: string, i: nat, j: nat, b: nat)
    requires Reachable(w) && n !in w.past.touched && n !in w.past.reopened
    requires i < j < |w.past.served| && w.past.served[i].ask.name == n && w.past.served[j].ask.name == n
    ensures !(Gave(w.past.served[i], b) && Gave(w.past.served[j], b))
  {
    AnswersDisjoint(w, n, i, j);
  }
}
