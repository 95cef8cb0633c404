/**
 * What the history records, and when: the marks that the theorems about runs speak of come from just the steps they
 * are named after, and no step takes back what was answered.
 */
module DaemonHistory {
  import opened Text
  import opened Records
  import opened PolicyStore
  import opened Daemon
  import opened DaemonShape

  /** The step starts a new cycle for `n`, removes it, or has grant-forever change its record. */
  predicate Touches(w: World, pc: PC, move: Move, n: string)
    requires Ready(w, pc, move)
  {
    match move
    case ClearNext(name) => name == n
    case Act =>
      n in w.mem.dir &&
      (match pc.order
       case RemoveOrder(name) => name == n
       case ResetOrder(only) => only == Some(n)
       case ForeverOrder(id) =>
         id in w.desk.pending && w.desk.pending[id].hash.Some? && w.desk.pending[id].secret == n
       case _ => false)
    case _ => false
  }

  /** The step is a manual grant on a spent record of `n` that nobody has the stream of. */
  predicate Reopens(w: World, pc: PC, move: Move, n: string)
    requires Ready(w, pc, move)
  {
    && move.Act? && pc.order.TakeOrder? && pc.order.ask.name == n && w.mem.Has(n) && n in w.mem.dir
    && w.mem.Get(n).reader == None && w.mem.Get(n).count > 0
  }

  lemma ActMarks(w: World, order: Order, n: string)
    requires Ready(w, Inside(order), Act)
    ensures
      var past := DoAct(w, order).past;
      && (n in past.touched <==> n in w.past.touched || Touches(w, Inside(order), Act, n))
      && (n in past.reopened <==> n in w.past.reopened || Reopens(w, Inside(order), Act, n))
      && past.lost == w.past.lost && past.bare == w.past.bare
  {
    if order.ForeverOrder? {
      ForeverMarks(w, order.id, n);
    } else if order.TakeOrder? {
      TakeMarks(w, order.ask, order.id, n);
    } else {
      OrderMarks(w, order, n);
    }
  }

  lemma TakeMarks(w: World, ask: Ask, id: nat, n: string)
    requires Ready(w, Inside(TakeOrder(ask, id)), Act)
    ensures
      var past := DoAct(w, TakeOrder(ask, id)).past;
      && past.touched == w.past.touched && past.lost == w.past.lost && past.bare == w.past.bare
      && (n in past.reopened <==> n in w.past.reopened || Reopens(w, Inside(TakeOrder(ask, id)), Act, n))
  {
  }

  lemma ForeverMarks(w: World, id: nat, n: string)
    requires Ready(w, Inside(ForeverOrder(id)), Act)
    ensures
      var past := DoForever(w, id).past;
      && (n in past.touched <==> n in w.past.touched || Touches(w, Inside(ForeverOrder(id)), Act, n))
      && past.reopened == w.past.reopened && past.lost == w.past.lost && past.bare == w.past.bare
  {
  }

  lemma OrderMarks(w: World, order: Order, n: string)
    requires Ready(w, Inside(order), Act) && !order.ForeverOrder? && !order.TakeOrder?
    ensures
      var past := DoAct(w, order).past;
      && (n in past.touched <==> n in w.past.touched || Touches(w, Inside(order), Act, n))
      && past.reopened == w.past.reopened && past.lost == w.past.lost && past.bare == w.past.bare
  {
  }

  lemma QuietMarks(w: World, t: nat, pc: PC, move: Move)
    requires Ready(w, pc, move) && !move.Act? && !move.ClearNext?
    ensures
      var past := TurnOf(w, t, pc, move).past;
      && past.touched == w.past.touched && past.reopened == w.past.reopened
      && (past.bare ==> w.past.bare && !move.Land?)
  {
  }

  /** A secret is touched, and reopened, by just these steps. */
  lemma MarkedByName(w: World, t: nat, move: Move, n: string)
    requires Ready(w, At(w, t), move)
    ensures
      var past := Apply(w, Thread(t, move)).past;
      && (n in past.touched <==> n in w.past.touched || Touches(w, At(w, t), move, n))
      && (n in past.reopened <==> n in w.past.reopened || Reopens(w, At(w, t), move, n))
  {
    if move.Act? {
      ActMarks(w, At(w, t).order, n);
    } else if !move.ClearNext? {
      QuietMarks(w, t, At(w, t), move);
    }
  }

  /** Grant-forever gives up on a record it has changed: its pending is not there alive, and was not found expired. */
  predicate GivesUp(w: World, pc: PC, move: Move, n: string) {
    move.Settle? && pc.Marked? && pc.changed && pc.name == n && pc.seen == Some(false) && !w.desk.Alive(pc.id)
  }

  /** The disk falls behind by nothing but such a failure; writing, or losing the memory, makes up for it. */
  lemma LostByName(w: World, t: nat, move: Move, n: string)
    requires Ready(w, At(w, t), move)
    ensures
      var past := Apply(w, Thread(t, move)).past;
      n in past.lost <==> !move.Land? && (n in w.past.lost || GivesUp(w, At(w, t), move, n))
  {
    if move.Act? {
      ActMarks(w, At(w, t).order, n);
    }
  }

  /** An answer is added by the thread that gives it, and by no other step. */
  lemma AnsweredByName(w: World, t: nat, move: Move)
    requires Ready(w, At(w, t), move)
    ensures
      var past, pc := Apply(w, Thread(t, move)).past, At(w, t);
      if move.Finish? && pc.errand.ReadErrand? && !pc.errand.probe then
        && past.served == w.past.served + [Answer(pc.errand.ask, pc.errand.release)]
        && past.answered ==
           w.past.answered + (if pc.errand.release.first then multiset{pc.errand.ask.name} else multiset{})
      else past.served == w.past.served && past.answered == w.past.answered
  {
    if move.Act? {
      ActFacts(w, At(w, t).order);
    }
  }

  /** What a granted attempt will have been: the list and the file as they were. */
  lemma ReleasedAsItWas(w: World, t: nat)
    requires Ready(w, At(w, t), Attempt)
    ensures
      var pc := At(w, t);
      var rec, next := w.mem.heap[(pc.ask.name, pc.gen)], At(Apply(w, Thread(t, Attempt)), t);
      next.Owing? ==> next.release == Release(rec.reader != Some(pc.ask.pid), rec.hashes, rec.size)
  {
  }

  /** Steps of no thread mark nothing: a crash only forgets what no disk can be behind on any more. */
  lemma OthersMarkNothing(w: World, s: Step)
    requires Enabled(w, s) && !s.Thread?
    ensures
      var past := Apply(w, s).past;
      && past.touched == w.past.touched && past.reopened == w.past.reopened && past.served == w.past.served
      && past.answered == w.past.answered && past.admitted == w.past.admitted && past.forever == w.past.forever
      && past.lost == if s.Crash? then {} else w.past.lost
  {
  }

  /** A run starts with nothing marked but what the store brings: unlimited secrets, and all of an unsalted store. */
  lemma BootMarks(file: StoreFile, sizes: HostSizes, timeout: nat, now: nat, n: string)
    ensures
      var past := Boot(file, sizes, timeout, now).past;
      && (n in past.touched <==> n in file.disk.secrets && file.disk.secrets[n].unlimited)
      && (n in past.lost <==> n in file.disk.secrets && !file.salted)
      && past.reopened == {} && past.served == [] && past.answered == multiset{} && past.admitted == {}
      && past.forever == {} && past.rotated == map[] && past.revoked == map[]
  {
  }

  /**
   * After a crash the disk is as it was, memory is what it holds, with no streams and the sizes of the day, and
   * threads, locks and pendings are gone; ids start over.
   */
  lemma CrashKeepsOnlyTheDisk(w: World, sizes: HostSizes, n: string)
    ensures
      var v := Apply(w, Crash(sizes));
      && v.disk == w.disk && v.mem.lockdown == w.disk.lockdown && v.holder.None? && v.threads == map[]
      && v.desk.pending == map[] && v.desk.nextId == 1 && v.desk.now == w.desk.now && v.desk.timeout == w.desk.timeout
      && (n in v.mem.dir <==> n in w.disk.secrets)
      && (n in w.disk.secrets ==>
            && v.mem.Has(n) && Project(v.mem.Get(n)) == w.disk.secrets[n]
            && v.mem.Get(n).reader == None && v.mem.Get(n).progress == 0)
  {
    BootRefs(w.disk, sizes);
  }
}
