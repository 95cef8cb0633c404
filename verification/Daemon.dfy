/**
 * The policy daemon as a step system. Reader and operator threads interleave at every lock boundary;
 * a crash may strike anywhere, after which a new process loads what the disk holds.
 *
 * One step is what a thread does under one record lock, at one look at the pending map, or between two
 * accesses of shared state under the persist lock. A read drops its record lock before it takes the
 * persist lock, and a snapshot visits records one at a time, so other reads can slip in between.
 * Writes replace the file atomically and succeed.
 */
module Daemon {
  import opened Text
  import opened Records
  import opened PolicyStore

  const FIRST_ID: nat := 1

  datatype Ask = Ask(name: string, pid: nat, hash: Option<string>, process: Option<string>, offset: Usize, size: Usize)

  /** A pending, as far as the protocol looks at it. */
  datatype Ticket = Ticket(secret: string, hash: Option<string>, process: Option<string>, expires: nat, granted: bool)

  /** What a thread does once it holds the persist lock. */
  datatype Order =
    | AddOrder(name: string, host: string, size: Usize, hash: string, mode: nat)
    | RemoveOrder(name: string)
    | ResetOrder(only: Option<string>)
    | RotateOrder(name: string, hash: string)
    | LockdownOrder(on: bool)
    | ForeverOrder(id: nat)
    | TakeOrder(ask: Ask, id: nat)

  /** What was so when a read was granted: whether it opened its stream, the list, and how long the file was. */
  datatype Release = Release(first: bool, hashes: seq<Permitted>, fileSize: Usize)

  /** Why a thread is persisting, which says how it goes on afterwards. */
  datatype Errand =
    | ReadErrand(ask: Ask, probe: bool, release: Release)
    | TakeErrand(ask: Ask, id: nat)
    | ForeverErrand(name: string, hash: string)
    | RotateErrand(name: string, hash: string)
    | PlainErrand

  /**
   * Where a thread stands. `probe` marks the second attempt, made without a hash to fetch the denial text; a granted
   * read carries its release, for the history. An ask loop puts three questions in turn, each at its own time:
   * granted? past the deadline? denied?
   */
  datatype PC =
    | Idle
    | Fetching(ask: Ask, probe: bool)
    | Holding(ask: Ask, probe: bool, gen: nat)
    | Owing(ask: Ask, probe: bool, release: Release)
    | Filing(ask: Ask)
    | Filed(ask: Ask, id: nat)
    | Polling(ask: Ask, id: nat, deadline: nat)
    | Checking(ask: Ask, id: nat, deadline: nat)
    | Doubting(ask: Ask, id: nat, deadline: nat)
    | Won(ask: Ask, id: nat)
    | Waiting(order: Order)
    | Inside(order: Order)
    | Clearing(todo: set<string>, dirty: set<string>)
    | Marked(id: nat, name: string, hash: string, changed: bool, seen: Option<bool>)
    | Walking(errand: Errand, dirty: set<string>, todo: set<string>, snap: map<string, Stored>, flag: bool)
    | Landed(errand: Errand)

  /** `dir` names the current generation of each record; `heap` keeps removed ones a reader may still hold. */
  datatype Memory = Memory(dir: map<string, nat>, heap: map<(string, nat), Rec>, nextGen: nat, lockdown: bool) {
    predicate Has(name: string) {
      name in dir && (name, dir[name]) in heap
    }

    function Get(name: string): Rec
      requires Has(name)
    {
      heap[(name, dir[name])]
    }

    function Set(name: string, rec: Rec): Memory
      requires Has(name)
    {
      this.(heap := heap[(name, dir[name]) := rec])
    }

    function Create(name: string, rec: Rec): Memory {
      Memory(dir[name := nextGen], heap[(name, nextGen) := rec], nextGen + 1, lockdown)
    }
  }

  datatype Verdict = Served | Vanished | TimedOut | TurnedAway

  /** What was so when an ask loop found its pending granted. */
  datatype Win = Win(at: nat, secret: string, granted: Option<nat>, expires: nat, denied: bool)

  /** The pendings and the clock. Everything after `now` is history, read by no step. */
  datatype Desk = Desk(
    pending: map<nat, Ticket>,
    nextId: nat,
    timeout: nat,
    now: nat,
    minted: map<nat, nat>,           // when each id's pending expires
    grants: map<nat, nat>,           // when an id was last granted
    denials: set<nat>,               // ids an operator denied
    wins: map<nat, Win>,
    taken: multiset<nat>,            // reads recorded for a granted id
    verdicts: map<nat, Verdict>)     // how each ask loop ended
  {
    /** Present and not yet expired. */
    predicate Alive(id: nat) {
      id in pending && pending[id].expires > now
    }

    function Mint(secret: string, hash: Option<string>, process: Option<string>): Desk {
      this.(
        pending := pending[nextId := Ticket(secret, hash, process, now + timeout, false)],
        nextId := nextId + 1,
        minted := minted[nextId := now + timeout])
    }

    function Grant(id: nat): Desk {
      if Alive(id) then
        this.(pending := pending[id := pending[id].(granted := true)], grants := grants[id := now])
      else this
    }

    function Deny(id: nat): Desk {
      if id in pending then this.(pending := pending - {id}, denials := denials + {id}) else this
    }

    function Award(id: nat): Desk
      requires Alive(id)
    {
      var p := pending[id];
      var win := Win(now, p.secret, if id in grants then Some(grants[id]) else None, p.expires, id in denials);
      this.(wins := wins[id := win])
    }

    function WinOf(id: nat): Option<Win> {
      if id in wins then Some(wins[id]) else None
    }

    function Take(id: nat): Desk {
      this.(taken := taken + multiset{id})
    }

    function Conclude(id: nat, verdict: Verdict): Desk {
      this.(verdicts := verdicts[id := verdict])
    }
  }

  datatype Disk = Disk(lockdown: bool, secrets: map<string, Stored>)

  /** A record whose stream a restart has forgotten: it grants nothing more by itself. */
  predicate Forgotten(rec: Rec) {
    rec.reader == None && rec.count > 0
  }

  /** Why a process has the stream of a secret: the list permitted what it showed, or its pending had been granted. */
  datatype Admission =
    | ByList(name: string, pid: nat, shown: Option<string>, hashes: seq<Permitted>)
    | ByHand(name: string, pid: nat, win: Option<Win>)

  /** A read that was granted automatically and reached its reader. */
  datatype Answer = Answer(ask: Ask, release: Release)

  /** History, read by no step. */
  datatype Past = Past(
    answered: multiset<string>,       // automatic first grants that reached their reader
    served: seq<Answer>,              // every automatic grant that did, in that order
    admitted: set<Admission>,         // every admission to a stream
    reopened: set<string>,            // secrets whose forgotten stream a manual grant has opened again
    touched: set<string>,             // secrets ever reset, removed or grant-forevered
    forever: set<(string, string)>,   // answered grant-forevers not rotated or removed since
    rotated: map<string, string>,     // rotations done in memory, with no add, grant-forever or remove since
    revoked: map<string, string>,     // those of them that have been written and answered
    lost: set<string>,                // secrets the disk is behind on though nobody owes a write, since the last one
    bare: bool)                       // the store had no usable salt, was emptied, and has not been written since
  {
    function Admit(a: Admission): Past {
      this.(admitted := admitted + {a})
    }

    /** A manual grant on a spent record whose stream a restart forgot lets its reader start over. */
    function Read(name: string, rec: Rec): Past {
      if Forgotten(rec) then this.(reopened := reopened + {name}) else this
    }

    /** The list of `name` may grow, or is gone. */
    function Widen(name: string): Past {
      this.(rotated := rotated - {name}, revoked := revoked - {name})
    }

    function Rotate(name: string, hash: string): Past {
      this.(rotated := rotated[name := hash], revoked := revoked - {name})
    }

    function Touch(name: string): Past {
      this.(touched := touched + {name})
    }

    function Forget(name: string): Past {
      this.(forever := set e | e in forever && e.0 != name)
    }
  }

  datatype World = World(mem: Memory, desk: Desk, disk: Disk, holder: Option<nat>, past: Past, threads: map<nat, PC>)

  function At(w: World, t: nat): PC {
    if t in w.threads then w.threads[t] else Idle
  }

  predicate HasLock(pc: PC) {
    pc.Inside? || pc.Clearing? || pc.Marked? || pc.Walking? || pc.Landed?
  }

  // ── startup ────────────────────────────────────────────────────

  function BootMemory(disk: Disk, sizes: HostSizes): Memory {
    Memory(
      map name | name in disk.secrets :: 0,
      map name | name in disk.secrets ::
        (name, 0) := Revive(disk.secrets[name], SizeOf(sizes, disk.secrets[name].host)),
      1,
      disk.lockdown)
  }

  function BootDesk(timeout: nat, now: nat): Desk {
    Desk(map[], FIRST_ID, timeout, now, map[], map[], {}, map[], multiset{}, map[])
  }

  /** A store as a process finds it, and whether any of its salt can be read. */
  datatype StoreFile = StoreFile(salted: bool, disk: Disk)

  /** Without a usable salt the store is written out empty, with a new one, before its secrets are taken in. */
  function DiskAfterBoot(file: StoreFile): Disk {
    if file.salted then file.disk else Disk(false, map[])
  }

  /** A new process on a store: fresh records, no threads, no pendings. */
  function Boot(file: StoreFile, sizes: HostSizes, timeout: nat, now: nat): World {
    World(
      BootMemory(file.disk, sizes),
      BootDesk(timeout, now),
      DiskAfterBoot(file),
      None,
      Past(
        multiset{},
        [],
        {},
        {},
        set name | name in file.disk.secrets && file.disk.secrets[name].unlimited,
        {},
        map[],
        map[],
        if file.salted then {} else file.disk.secrets.Keys,
        !file.salted),
      map[])
  }

  // ── what a thread does next ────────────────────────────────────

  datatype Move =
    | StartAsk(ask: Ask)
    | StartOrder(order: Order)
    | Fetch
    | Attempt
    | Acquire
    | Act
    | ClearNext(name: string)
    | CheckExpiry
    | Settle
    | Visit(name: string)
    | Land
    | Finish
    | File
    | SetDeadline
    | Poll
    | CheckDeadline
    | CheckDenied
    | Collect

  predicate Ready(w: World, pc: PC, move: Move) {
    match move
    case StartAsk(_) => pc.Idle?
    case StartOrder(order) => pc.Idle? && !order.TakeOrder?
    case Fetch => pc.Fetching?
    case Attempt => pc.Holding? && (pc.ask.name, pc.gen) in w.mem.heap
    case Acquire => (pc.Owing? || pc.Waiting?) && w.holder.None?
    case Act => pc.Inside? && forall name :: name in w.mem.dir ==> w.mem.Has(name)
    case ClearNext(name) => pc.Clearing? && name in pc.todo && w.mem.Has(name)
    case CheckExpiry => pc.Marked? && pc.seen.None?
    case Settle => pc.Marked? && pc.seen.Some?
    case Visit(name) => pc.Walking? && name in pc.todo && w.mem.Has(name)
    case Land => pc.Walking? && pc.todo == {}
    case Finish => pc.Landed?
    case File => pc.Filing?
    case SetDeadline => pc.Filed?
    case Poll => pc.Polling?
    case CheckDeadline => pc.Checking?
    case CheckDenied => pc.Doubting?
    case Collect => pc.Won?
  }

  /** What one move leaves behind: the shared state and the mover's new place. Nobody else's place changes. */
  datatype Turn = Turn(mem: Memory, desk: Desk, disk: Disk, holder: Option<nat>, past: Past, pc: PC)

  function Stay(w: World, pc: PC): Turn {
    Turn(w.mem, w.desk, w.disk, w.holder, w.past, pc)
  }

  /** The thread gives the persist lock back. */
  function Leave(w: World, pc: PC): Turn {
    Turn(w.mem, w.desk, w.disk, None, w.past, pc)
  }

  /** Start a snapshot: the lockdown flag is read at once, the records later, one by one. */
  function Walk(w: World, mem: Memory, past: Past, errand: Errand, dirty: set<string>): Turn {
    Turn(mem, w.desk, w.disk, w.holder, past, Walking(errand, dirty, mem.dir.Keys, map[], mem.lockdown))
  }

  function TurnOf(w: World, t: nat, pc: PC, move: Move): Turn
    requires Ready(w, pc, move)
  {
    match move
    case StartAsk(ask) => Stay(w, Fetching(ask, false))
    case StartOrder(order) => Stay(w, Waiting(order))
    case Fetch =>
      Stay(w, if pc.ask.name in w.mem.dir then Holding(pc.ask, pc.probe, w.mem.dir[pc.ask.name])
              else if pc.probe then Filing(pc.ask) else Idle)
    case Attempt => DoAttempt(w, pc)
    case Acquire => DoAcquire(w, t, pc)
    case Act => DoAct(w, pc.order)
    case ClearNext(name) => DoClear(w, pc, name)
    case CheckExpiry =>
      Stay(w, pc.(seen := Some(pc.id in w.desk.pending && w.desk.pending[pc.id].expires <= w.desk.now)))
    case Settle => DoSettle(w, pc)
    case Visit(name) => Stay(w, pc.(todo := pc.todo - {name}, snap := pc.snap[name := Project(w.mem.Get(name))]))
    case Land =>
      Turn(w.mem, w.desk, Disk(pc.flag, pc.snap), w.holder, w.past.(lost := {}, bare := false), Landed(pc.errand))
    case Finish => DoFinish(w, pc.errand)
    case File => DoFile(w, pc.ask)
    case SetDeadline => Stay(w, Polling(pc.ask, pc.id, w.desk.now + w.desk.timeout))
    case Poll => DoPoll(w, pc)
    case CheckDeadline =>
      if w.desk.now > pc.deadline then Stay(w, Idle).(desk := w.desk.Conclude(pc.id, TimedOut))
      else Stay(w, Doubting(pc.ask, pc.id, pc.deadline))
    case CheckDenied =>
      if !w.desk.Alive(pc.id) then Stay(w, Idle).(desk := w.desk.Conclude(pc.id, TurnedAway))
      else Stay(w, Polling(pc.ask, pc.id, pc.deadline))
    case Collect =>
      Stay(w, Waiting(TakeOrder(pc.ask, pc.id))).(desk := w.desk.(pending := w.desk.pending - {pc.id}))
  }

  /** The part of a read under the record's lock. A denied first attempt is followed by the probe. */
  function DoAttempt(w: World, pc: PC): Turn
    requires Ready(w, pc, Attempt)
  {
    var ask, ref := pc.ask, (pc.ask.name, pc.gen);
    var observed := if pc.probe then None else ask.hash;
    var rec := w.mem.heap[ref];
    match Decide(rec, ask.pid, observed, ask.offset, w.mem.lockdown)
    case Granted =>
      var after := AfterAttempt(rec, ask.pid, observed, ask.offset, ask.size, w.mem.lockdown);
      var first := !Continues(rec, ask.pid);
      Stay(w, Owing(ask, pc.probe, Release(first, rec.hashes, rec.size)))
        .(mem := w.mem.(heap := w.mem.heap[ref := after]),
          past := if first then w.past.Admit(ByList(ask.name, ask.pid, observed, rec.hashes)) else w.past)
    case DeniedLocked =>
      Stay(w, if pc.probe then Filing(ask) else Idle).(desk := w.desk.Mint(ask.name, observed, None))
    case _ =>
      Stay(w, if pc.probe then Filing(ask) else Fetching(ask, true))
  }

  function DoAcquire(w: World, t: nat, pc: PC): Turn
    requires Ready(w, pc, Acquire)
  {
    var v := w.(holder := Some(t));
    if pc.Owing? then Walk(v, w.mem, w.past, ReadErrand(pc.ask, pc.probe, pc.release), {pc.ask.name})
    else Stay(v, Inside(pc.order))
  }

  function DoAct(w: World, order: Order): Turn
    requires Ready(w, Inside(order), Act)
  {
    match order
    case AddOrder(name, host, size, hash, mode) =>
      Walk(w, if name in w.mem.dir then w.mem.Set(name, ReAdded(w.mem.Get(name), host, size, hash, mode))
              else w.mem.Create(name, Created(host, size, hash, mode)),
        w.past.Widen(name), PlainErrand, {name})
    case RemoveOrder(name) =>
      if name !in w.mem.dir then Leave(w, Idle)
      else
        Walk(w, w.mem.(dir := w.mem.dir - {name}), w.past.Touch(name).Forget(name).Widen(name), PlainErrand, {name})
    case ResetOrder(only) =>
      if only.None? then
        if w.mem.dir == map[] then Leave(w, Idle) else Stay(w, Clearing(w.mem.dir.Keys, {}))
      else if only.value !in w.mem.dir then Leave(w, Idle)
      else
        Walk(w, w.mem.Set(only.value, Reset(w.mem.Get(only.value))), w.past.Touch(only.value),
          PlainErrand, {only.value})
    case RotateOrder(name, hash) =>
      if name !in w.mem.dir then Leave(w, Idle)
      else
        Walk(w, w.mem.Set(name, Rotated(w.mem.Get(name), hash)), w.past.Forget(name).Rotate(name, hash),
          RotateErrand(name, hash), {name})
    case LockdownOrder(on) => Walk(w, w.mem.(lockdown := on), w.past, PlainErrand, {})
    case ForeverOrder(id) => DoForever(w, id)
    case TakeOrder(ask, id) =>
      if ask.name !in w.mem.dir then Leave(w, Idle).(desk := w.desk.Conclude(id, Vanished))
      else
        Walk(w, w.mem.Set(ask.name, AfterManual(w.mem.Get(ask.name), ask.pid, ask.offset, ask.size)),
          w.past.Read(ask.name, w.mem.Get(ask.name)).Admit(ByHand(ask.name, ask.pid, w.desk.WinOf(id))),
          TakeErrand(ask, id), {ask.name}).(desk := w.desk.Take(id))
  }

  /** Grant-forever refuses before it touches anything, or changes the record and goes on to the pending. */
  function DoForever(w: World, id: nat): Turn
    requires forall name :: name in w.mem.dir ==> w.mem.Has(name)
  {
    if id !in w.desk.pending || w.desk.pending[id].hash.None? || w.desk.pending[id].secret !in w.mem.dir then
      Leave(w, Idle)
    else
      var p := w.desk.pending[id];
      var rec := w.mem.Get(p.secret);
      var after := Whitelisted(rec, p.hash.value, p.process);
      Turn(w.mem.Set(p.secret, after), w.desk, w.disk, w.holder, w.past.Touch(p.secret).Widen(p.secret),
        Marked(id, p.secret, p.hash.value, Project(after) != Project(rec), None))
  }

  function DoClear(w: World, pc: PC, name: string): Turn
    requires Ready(w, pc, ClearNext(name))
  {
    var mem := w.mem.Set(name, Reset(w.mem.Get(name)));
    if pc.todo == {name} then Walk(w, mem, w.past.Touch(name), PlainErrand, pc.dirty + {name})
    else Turn(mem, w.desk, w.disk, w.holder, w.past.Touch(name), Clearing(pc.todo - {name}, pc.dirty + {name}))
  }

  /**
   * Grant-forever, its record changed, grants the pending and persists. If the pending is gone or has just
   * expired, and was no remembered denial when looked at before, it gives up without persisting.
   */
  function DoSettle(w: World, pc: PC): Turn
    requires Ready(w, pc, Settle)
  {
    if w.desk.Alive(pc.id) then
      Walk(w, w.mem, w.past, ForeverErrand(pc.name, pc.hash), {pc.name}).(desk := w.desk.Grant(pc.id))
    else if pc.seen.value then Walk(w, w.mem, w.past, ForeverErrand(pc.name, pc.hash), {pc.name})
    else Leave(w, Idle).(past := if pc.changed then w.past.(lost := w.past.lost + {pc.name}) else w.past)
  }

  function DoFinish(w: World, errand: Errand): Turn {
    match errand
    case ReadErrand(ask, probe, release) =>
      if probe then Leave(w, Filing(ask))
      else
        Leave(w, Idle).(past := w.past.(
          answered := if release.first then w.past.answered + multiset{ask.name} else w.past.answered,
          served := w.past.served + [Answer(ask, release)]))
    case TakeErrand(_, id) => Leave(w, Idle).(desk := w.desk.Conclude(id, Served))
    case ForeverErrand(name, hash) => Leave(w, Idle).(past := w.past.(forever := w.past.forever + {(name, hash)}))
    case RotateErrand(name, hash) => Leave(w, Idle).(past := w.past.(revoked := w.past.revoked[name := hash]))
    case PlainErrand => Leave(w, Idle)
  }

  function DoFile(w: World, ask: Ask): Turn {
    if w.desk.timeout == 0 then Stay(w, Idle)
    else Stay(w, Filed(ask, w.desk.nextId)).(desk := w.desk.Mint(ask.name, ask.hash, ask.process))
  }

  /** The loop's first question. A pending seen granted is won whatever becomes of it afterwards. */
  function DoPoll(w: World, pc: PC): Turn
    requires pc.Polling?
  {
    if w.desk.Alive(pc.id) && w.desk.pending[pc.id].granted then
      Stay(w, Won(pc.ask, pc.id)).(desk := w.desk.Award(pc.id))
    else Stay(w, Checking(pc.ask, pc.id, pc.deadline))
  }

  // ── steps ──────────────────────────────────────────────────────

  /** What the operator, the panel and the clock do to pendings, without any persist lock. */
  datatype DeskOp =
    | GrantOnce(id: nat)
    | DenyOnce(id: nat)
    | Cleanup
    | LookUp(id: nat, hash: Option<string>)
    | Tick(later: nat)

  function AtDesk(d: Desk, op: DeskOp): Desk {
    match op
    case GrantOnce(id) => d.Grant(id)
    case DenyOnce(id) => d.Deny(id)
    case Cleanup =>
      d.(pending :=
        map id | id in d.pending && (d.pending[id].expires > d.now || d.pending[id].hash.Some?) :: d.pending[id])
    case LookUp(id, hash) =>
      if id in d.pending then d.(pending := d.pending[id := d.pending[id].(hash := hash)]) else d
    case Tick(later) => if d.now <= later then d.(now := later) else d
  }

  datatype Step =
    | Thread(t: nat, move: Move)
    | Operator(op: DeskOp)
    | Observe(name: string, size: Usize)
    | Crash(sizes: HostSizes)

  predicate Enabled(w: World, s: Step) {
    match s
    case Thread(t, move) => Ready(w, At(w, t), move)
    case Observe(name, _) => w.mem.Has(name)
    case _ => true
  }

  function Moved(w: World, t: nat, turn: Turn): World {
    World(turn.mem, turn.desk, turn.disk, turn.holder, turn.past, w.threads[t := turn.pc])
  }

  function Apply(w: World, s: Step): World
    requires Enabled(w, s)
  {
    match s
    case Thread(t, move) => Moved(w, t, TurnOf(w, t, At(w, t), move))
    case Operator(op) => w.(desk := AtDesk(w.desk, op))
    case Observe(name, size) => w.(mem := w.mem.Set(name, w.mem.Get(name).(size := size)))
    case Crash(sizes) => Crashed(w, sizes)
  }

  /**
   * Threads, pendings and memory are gone; the disk and the record of what was answered are not. A process leaves
   * a store with its own salt, so the next one takes it as it is.
   */
  function Crashed(w: World, sizes: HostSizes): World {
    World(
      BootMemory(w.disk, sizes),
      BootDesk(w.desk.timeout, w.desk.now),
      w.disk,
      None,
      w.past.(lost := {}, bare := false, rotated := w.past.revoked),
      map[])
  }

  // ── runs ───────────────────────────────────────────────────────

  predicate Legal(w: World, steps: seq<Step>)
    decreases |steps|
  {
    steps != [] ==> Enabled(w, steps[0]) && Legal(Apply(w, steps[0]), steps[1..])
  }

  function Result(w: World, steps: seq<Step>): World
    requires Legal(w, steps)
    decreases |steps|
  {
    if steps == [] then w else Result(Apply(w, steps[0]), steps[1..])
  }

  predicate Run(file: StoreFile, sizes: HostSizes, timeout: nat, now: nat, steps: seq<Step>, w: World) {
    Legal(Boot(file, sizes, timeout, now), steps) && Result(Boot(file, sizes, timeout, now), steps) == w
  }

  /** A world some daemon can get to, from some store, by some run. */
  ghost predicate Reachable(w: World) {
    exists file, sizes, timeout, now, steps :: Run(file, sizes, timeout, now, steps, w)
  }

  lemma {:induction false} RunAppend(w: World, steps: seq<Step>, s: Step)
    requires Legal(w, steps) && Enabled(Result(w, steps), s)
    ensures Legal(w, steps + [s]) && Result(w, steps + [s]) == Apply(Result(w, steps), s)
    decreases |steps|
  {
    if steps == [] {
      assert ([] + [s])[1..] == [];
    } else {
      assert (steps + [s])[1..] == steps[1..] + [s];
      RunAppend(Apply(w, steps[0]), steps[1..], s);
    }
  }

  lemma RunOn(file: StoreFile, sizes: HostSizes, timeout: nat, now: nat, steps: seq<Step>, w: World, s: Step)
    requires Run(file, sizes, timeout, now, steps, w) && Enabled(w, s)
    ensures Run(file, sizes, timeout, now, steps + [s], Apply(w, s))
  {
    RunAppend(Boot(file, sizes, timeout, now), steps, s);
  }

  lemma ReachableByRun(file: StoreFile, sizes: HostSizes, timeout: nat, now: nat, steps: seq<Step>, w: World)
    requires Run(file, sizes, timeout, now, steps, w)
    ensures Reachable(w)
  {
  }

  lemma ReachableNext(w: World, s: Step)
    requires Reachable(w) && Enabled(w, s)
    ensures Reachable(Apply(w, s))
  {
    var file, sizes, timeout, now, steps :| Run(file, sizes, timeout, now, steps, w);
    var v := Apply(w, s);
    RunOn(file, sizes, timeout, now, steps, w, s);
    ReachableByRun(file, sizes, timeout, now, steps + [s], v);
  }

  lemma ReachableBoot(file: StoreFile, sizes: HostSizes, timeout: nat, now: nat)
    ensures Reachable(Boot(file, sizes, timeout, now))
  {
    ReachableByRun(file, sizes, timeout, now, [], Boot(file, sizes, timeout, now));
  }
}
