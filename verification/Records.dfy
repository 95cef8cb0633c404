/** One secret's record and the rules every command applies to it. */
module Records {
  import opened Text

  const USIZE_MAX: nat := 0xFFFF_FFFF_FFFF_FFFF
  const WILDCARD_HASH: string := "*"
  const UNKNOWN_HASH: string := "<unknown>"
  const HASH_JOIN_SEP: string := " | "
  const REASON_EXCEEDED: string := "exceeded access limit"
  const REASON_LOCKDOWN: string := "lockdown armed: new unauthorized access is refused"
  const MODE_MASK_PLAIN: nat := 0x200  // `mode & 0o777` keeps the low nine bits

  /** A 64-bit size or offset. */
  type Usize = n: nat | n <= USIZE_MAX

  datatype Permitted = Permitted(hash: string, who: Option<string>) {
    function Render(): string {
      match who
      case Some(name) => hash + " (by " + name + ")"
      case None => hash
    }
  }

  /** The value of one record. `reader` and `progress` describe the live stream. */
  datatype Rec = Rec(
    host: string,
    size: Usize,
    hashes: seq<Permitted>,
    count: nat,
    reader: Option<nat>,
    progress: Usize,
    mode: nat,
    unlimited: bool)

  datatype Outcome =
    | Granted
    | AlreadyAccessed
    | HashMismatch(got: string, expected: string)
    | DeniedLocked
    | NotFound
  {
    function Reason(): Option<string> {
      match this
      case AlreadyAccessed => Some(REASON_EXCEEDED)
      case HashMismatch(got, expected) => Some("hash mismatch: got " + got + ", expected " + expected)
      case DeniedLocked => Some(REASON_LOCKDOWN)
      case Granted => None
      case NotFound => None
    }
  }

  function PlainMode(mode: nat): nat {
    mode % MODE_MASK_PLAIN
  }

  function Min(a: Usize, b: Usize): Usize {
    if a <= b then a else b
  }

  function Max(a: Usize, b: Usize): Usize {
    if a <= b then b else a
  }

  function SaturatingAdd(a: Usize, b: Usize): Usize {
    if a + b <= USIZE_MAX then a + b else USIZE_MAX
  }

  /** Where a read of `size` bytes at `offset` stops, clamped to the file. */
  function End(rec: Rec, offset: Usize, size: Usize): Usize {
    Min(SaturatingAdd(offset, size), rec.size)
  }

  predicate Lists(hashes: seq<Permitted>, hash: string) {
    exists i :: 0 <= i < |hashes| && hashes[i].hash == hash
  }

  /** Whether an observed package hash (or none) is on the permitted list. */
  predicate Admits(hashes: seq<Permitted>, observed: Option<string>) {
    Lists(hashes, WILDCARD_HASH) || (observed.Some? && Lists(hashes, observed.value))
  }

  predicate NoDuplicates(hashes: seq<Permitted>) {
    forall i, j :: 0 <= i < j < |hashes| ==> hashes[i].hash != hashes[j].hash
  }

  function Rendered(hashes: seq<Permitted>): seq<string> {
    seq(|hashes|, i requires 0 <= i < |hashes| => hashes[i].Render())
  }

  // ── reads ──────────────────────────────────────────────────────

  /** Whether this read continues the stream its own process opened. */
  predicate Continues(rec: Rec, pid: nat) {
    rec.reader == Some(pid)
  }

  function Decide(rec: Rec, pid: nat, observed: Option<string>, offset: Usize, lockdown: bool): Outcome {
    if Continues(rec, pid) then
      if offset < rec.progress && !rec.unlimited then AlreadyAccessed else Granted
    else if rec.count > 0 && !rec.unlimited then AlreadyAccessed
    else if Admits(rec.hashes, observed) then Granted
    else if lockdown then DeniedLocked
    else
      HashMismatch(
        if observed.Some? then observed.value else UNKNOWN_HASH,
        Join(Rendered(rec.hashes), HASH_JOIN_SEP))
  }

  function AfterAttempt(rec: Rec, pid: nat, observed: Option<string>, offset: Usize, size: Usize, lockdown: bool): Rec {
    if !Decide(rec, pid, observed, offset, lockdown).Granted? then rec
    else if Continues(rec, pid) then rec.(progress := Max(rec.progress, End(rec, offset, size)))
    else rec.(count := rec.count + 1, reader := Some(pid), progress := End(rec, offset, size))
  }

  /** A manual grant serves the read whatever its hash. */
  function AfterManual(rec: Rec, pid: nat, offset: Usize, size: Usize): Rec {
    rec.(count := rec.count + 1, reader := Some(pid), progress := Max(rec.progress, End(rec, offset, size)))
  }

  // ── commands ───────────────────────────────────────────────────

  function Created(host: string, size: Usize, hash: string, mode: nat): Rec {
    Rec(host, size, [Permitted(hash, None)], 0, None, 0, PlainMode(mode), false)
  }

  function Joined(hashes: seq<Permitted>, hash: string, who: Option<string>): seq<Permitted> {
    if Lists(hashes, hash) then hashes else hashes + [Permitted(hash, who)]
  }

  function ReAdded(rec: Rec, host: string, size: Usize, hash: string, mode: nat): Rec {
    rec.(hashes := Joined(rec.hashes, hash, None), size := size, mode := PlainMode(mode), host := host)
  }

  function Reset(rec: Rec): Rec {
    rec.(count := 0, reader := None, progress := 0)
  }

  function Rotated(rec: Rec, hash: string): Rec {
    rec.(hashes := [Permitted(hash, None)])
  }

  /** The first entry for `hash` is attributed to `who` unless it already names a process. */
  function Attributed(hashes: seq<Permitted>, hash: string, who: Option<string>): (r: seq<Permitted>)
    ensures |r| == |hashes|
    ensures forall i :: 0 <= i < |r| ==> r[i].hash == hashes[i].hash
    ensures forall i :: 0 <= i < |r| ==> hashes[i].who.Some? ==> r[i] == hashes[i]
  {
    if hashes == [] then []
    else if hashes[0].hash == hash then
      [if hashes[0].who.None? then Permitted(hash, who) else hashes[0]] + hashes[1..]
    else [hashes[0]] + Attributed(hashes[1..], hash, who)
  }

  /** Grant-forever: the hash joins the list, attributed, and the read limit is lifted. */
  function Whitelisted(rec: Rec, hash: string, who: Option<string>): Rec {
    rec.(
      hashes :=
        if Lists(rec.hashes, hash) then Attributed(rec.hashes, hash, who)
        else rec.hashes + [Permitted(hash, who)],
      unlimited := true)
  }

  /** What a restart loads back from a stored record: the stream is gone, the size is observed anew. */
  function Reloaded(rec: Rec, size: Usize): Rec {
    rec.(reader := None, progress := 0, size := size)
  }

  // ── everything that happens to a record ────────────────────────

  datatype Event =
    | Read(pid: nat, observed: Option<string>, offset: Usize, size: Usize, lockdown: bool)
    | Manual(pid: nat, offset: Usize, size: Usize)
    | Resize(size: Usize)
    | ReAdd(host: string, size: Usize, hash: string, mode: nat)
    | Rotate(hash: string)
    | Clear
    | Whitelist(hash: string, who: Option<string>)
    | Restart(size: Usize)

  function After(rec: Rec, e: Event): Rec {
    match e
    case Read(pid, observed, offset, size, lockdown) => AfterAttempt(rec, pid, observed, offset, size, lockdown)
    case Manual(pid, offset, size) => AfterManual(rec, pid, offset, size)
    case Resize(size) => rec.(size := size)
    case ReAdd(host, size, hash, mode) => ReAdded(rec, host, size, hash, mode)
    case Rotate(hash) => Rotated(rec, hash)
    case Clear => Reset(rec)
    case Whitelist(hash, who) => Whitelisted(rec, hash, who)
    case Restart(size) => Reloaded(rec, size)
  }

  function AfterAll(rec: Rec, events: seq<Event>): Rec
    decreases |events|
  {
    if events == [] then rec else AfterAll(After(rec, events[0]), events[1..])
  }

  // ── grant-forever is a standing entitlement ────────────────────

  predicate Entitled(rec: Rec, hash: string) {
    rec.unlimited && Lists(rec.hashes, hash)
  }

  /** An entitled package is granted for every pid, offset, size and lockdown setting, and no refusal can reach it. */
  lemma EntitledReadsAreGranted(rec: Rec, hash: string, pid: nat, offset: Usize, lockdown: bool)
    requires Entitled(rec, hash)
    ensures Decide(rec, pid, Some(hash), offset, lockdown).Granted?
  {
  }

  lemma ListsAfterAppend(hashes: seq<Permitted>, extra: Permitted, hash: string)
    ensures Lists(hashes + [extra], hash) <==> Lists(hashes, hash) || extra.hash == hash
  {
    var all := hashes + [extra];
    if Lists(hashes, hash) {
      var i :| 0 <= i < |hashes| && hashes[i].hash == hash;
      assert all[i].hash == hash;
    }
    if extra.hash == hash {
      assert all[|hashes|].hash == hash;
    }
    if Lists(all, hash) {
      var i :| 0 <= i < |all| && all[i].hash == hash;
      assert i < |hashes| ==> hashes[i].hash == hash;
    }
  }

  lemma ListsAfterAttribution(hashes: seq<Permitted>, hash: string, who: Option<string>, h: string)
    ensures Lists(Attributed(hashes, hash, who), h) <==> Lists(hashes, h)
  {
    var r := Attributed(hashes, hash, who);
    if Lists(hashes, h) {
      var i :| 0 <= i < |hashes| && hashes[i].hash == h;
      assert r[i].hash == h;
    }
    if Lists(r, h) {
      var i :| 0 <= i < |r| && r[i].hash == h;
      assert hashes[i].hash == h;
    }
  }

  /** Whitelisting adds exactly the one hash to the permitted list. */
  lemma WhitelistedLists(rec: Rec, hash: string, who: Option<string>, h: string)
    ensures Lists(Whitelisted(rec, hash, who).hashes, h) <==> Lists(rec.hashes, h) || h == hash
  {
    ListsAfterAppend(rec.hashes, Permitted(hash, who), h);
    ListsAfterAttribution(rec.hashes, hash, who, h);
  }

  /** No event but rotation takes an entitlement away, and none brings a duplicate into the permitted list. */
  lemma EntitlementStep(rec: Rec, e: Event, hash: string)
    ensures Entitled(rec, hash) && !e.Rotate? ==> Entitled(After(rec, e), hash)
    ensures NoDuplicates(rec.hashes) ==> NoDuplicates(After(rec, e).hashes)
  {
    match e
    case Whitelist(h, who) =>
      WhitelistedLists(rec, h, who, hash);
      WhitelistKeepsListDistinct(rec, h, who);
    case ReAdd(_, _, h, _) =>
      ListsAfterAppend(rec.hashes, Permitted(h, None), hash);
    case _ =>
  }

  /**
   * Once a package is whitelisted, every later read by it is granted, for every pid and offset, after
   * any events but a rotation. The permitted list never holds a hash twice.
   */
  lemma {:induction false} WhitelistingLasts(
    rec: Rec, events: seq<Event>, hash: string, pid: nat, offset: Usize, lockdown: bool)
    requires Entitled(rec, hash)
    requires forall e :: e in events ==> !e.Rotate?
    ensures Decide(AfterAll(rec, events), pid, Some(hash), offset, lockdown).Granted?
    ensures NoDuplicates(rec.hashes) ==> NoDuplicates(AfterAll(rec, events).hashes)
    decreases |events|
  {
    if events == [] {
      EntitledReadsAreGranted(rec, hash, pid, offset, lockdown);
    } else {
      EntitlementStep(rec, events[0], hash);
      WhitelistingLasts(After(rec, events[0]), events[1..], hash, pid, offset, lockdown);
    }
  }

  lemma WhitelistKeepsListDistinct(rec: Rec, hash: string, who: Option<string>)
    ensures NoDuplicates(rec.hashes) ==> NoDuplicates(Whitelisted(rec, hash, who).hashes)
  {
    if NoDuplicates(rec.hashes) && Lists(rec.hashes, hash) {
      var r := Attributed(rec.hashes, hash, who);
      assert forall i, j :: 0 <= i < j < |r| ==> r[i].hash == rec.hashes[i].hash && r[j].hash == rec.hashes[j].hash;
    }
  }

  // ── the probe for the denial text ──────────────────────────────

  lemma SameSuffixSamePrefix(a: string, b: string, tail: string)
    requires a + tail == b + tail
    ensures a == b
  {
    assert |a| == |b|;
    assert a == (a + tail)[..|a|];
    assert b == (b + tail)[..|b|];
  }

  /** The mismatch text determines the hash it names. */
  lemma MismatchTextNamesHash(x: string, y: string, expected: string)
    ensures HashMismatch(x, expected).Reason() == HashMismatch(y, expected).Reason() <==> x == y
  {
    if HashMismatch(x, expected).Reason() == HashMismatch(y, expected).Reason() {
      var head := "hash mismatch: got ";
      assert head + x + ", expected " + expected == (head + x) + (", expected " + expected);
      assert head + y + ", expected " + expected == (head + y) + (", expected " + expected);
      SameSuffixSamePrefix(head + x, head + y, ", expected " + expected);
      assert x == (head + x)[|head|..];
      assert y == (head + y)[|head|..];
    }
  }

  /**
   * After a denial that leads to a pending, asking again without a hash is denied the same way and
   * changes nothing. Its text is the text of the original denial unless a known hash mismatched:
   * then the pending's reason says the hash was unknown.
   */
  lemma ProbeRepeatsDenial(rec: Rec, pid: nat, observed: Option<string>, offset: Usize, size: Usize, lockdown: bool)
    requires
      var first := Decide(rec, pid, observed, offset, lockdown);
      first.AlreadyAccessed? || first.HashMismatch?
    ensures
      var first := Decide(rec, pid, observed, offset, lockdown);
      var again := Decide(rec, pid, None, offset, lockdown);
      && AfterAttempt(rec, pid, observed, offset, size, lockdown) == rec
      && AfterAttempt(rec, pid, None, offset, size, lockdown) == rec
      && again.AlreadyAccessed? == first.AlreadyAccessed?
      && again.HashMismatch? == first.HashMismatch?
      && again.Reason().Some?
      && (again.Reason() == first.Reason() <==>
          first.AlreadyAccessed? || observed == None || observed == Some(UNKNOWN_HASH))
  {
    if Decide(rec, pid, observed, offset, lockdown).HashMismatch? && observed.Some? {
      MismatchTextNamesHash(observed.value, UNKNOWN_HASH, Join(Rendered(rec.hashes), HASH_JOIN_SEP));
    }
  }

  // ── one stream never serves a byte twice ───────────────────────

  /** The bytes from `lo` up to but not including `hi`. */
  datatype Range = Range(lo: nat, hi: nat)

  /** The request asks for byte `b` and a file of that many bytes has it. */
  predicate Asks(offset: nat, size: nat, fileSize: nat, b: nat) {
    offset <= b < offset + size && b < fileSize
  }

  /** All the bytes a request asks for of a file. */
  function Asked(offset: nat, size: nat, fileSize: nat): Range {
    Range(offset, if offset + size <= fileSize then offset + size else fileSize)
  }

  /** Where the stream is said to stop is where the bytes asked for end, however large the numbers. */
  lemma EndExact(rec: Rec, offset: Usize, size: Usize, b: nat)
    ensures offset <= b < End(rec, offset, size) <==> Asks(offset, size, rec.size, b)
    ensures var r := Asked(offset, size, rec.size); r.lo <= b < r.hi <==> Asks(offset, size, rec.size, b)
  {
  }

  /** A granted read, automatic or manual, leaves every byte it asks for behind the stream. */
  lemma GrantedPassesBytes(
    rec: Rec, pid: nat, observed: Option<string>, offset: Usize, size: Usize, lockdown: bool, b: nat)
    requires Asks(offset, size, rec.size, b)
    ensures Decide(rec, pid, observed, offset, lockdown).Granted? ==>
      b < AfterAttempt(rec, pid, observed, offset, size, lockdown).progress
    ensures b < AfterManual(rec, pid, offset, size).progress
  {
    EndExact(rec, offset, size, b);
  }

  /** The non-empty range of the file that a granted read asks for, if any. */
  function Served(rec: Rec, e: Event): seq<Range> {
    if e.Read? && Decide(rec, e.pid, e.observed, e.offset, e.lockdown).Granted? &&
       Asked(e.offset, e.size, rec.size).lo < Asked(e.offset, e.size, rec.size).hi
    then [Asked(e.offset, e.size, rec.size)]
    else []
  }

  function Ranges(rec: Rec, events: seq<Event>): seq<Range>
    decreases |events|
  {
    if events == [] then []
    else Served(rec, events[0]) + Ranges(After(rec, events[0]), events[1..])
  }

  /** The largest size the record has anywhere along the events. */
  function LargestSize(rec: Rec, events: seq<Event>): Usize
    decreases |events|
  {
    if events == [] then rec.size
    else Max(rec.size, LargestSize(After(rec, events[0]), events[1..]))
  }

  function TotalLength(ranges: seq<Range>): int {
    if ranges == [] then 0
    else ranges[0].hi - ranges[0].lo + TotalLength(ranges[1..])
  }

  predicate Increasing(ranges: seq<Range>) {
    && (forall i :: 0 <= i < |ranges| ==> ranges[i].lo < ranges[i].hi)
    && (forall i, j :: 0 <= i < j < |ranges| ==> ranges[i].hi <= ranges[j].lo)
  }

  /** What every reset, creation and restart establishes and every rule keeps: an untouched budget has no stream. */
  predicate Streamable(rec: Rec) {
    rec.count == 0 ==> rec.reader == None && rec.progress == 0
  }

  /** No reset and no grant-forever: the budget is the same one throughout. */
  predicate SameBudget(events: seq<Event>) {
    forall e :: e in events ==> !e.Clear? && !e.Whitelist?
  }

  predicate NoManual(events: seq<Event>) {
    forall e :: e in events ==> !e.Manual?
  }

  predicate NoRestart(events: seq<Event>) {
    forall e :: e in events ==> !e.Restart?
  }

  /** One cycle of a limited secret: once a restart has found the budget spent, no manual grant. */
  predicate OneCycle(rec: Rec, events: seq<Event>)
    decreases |events|
  {
    && SameBudget(events)
    && (events != [] ==>
          && (events[0].Restart? && rec.count > 0 ==> NoManual(events[1..]))
          && OneCycle(After(rec, events[0]), events[1..]))
  }

  lemma StepConserves(rec: Rec, e: Event)
    requires Streamable(rec) && !rec.unlimited && !e.Clear? && !e.Whitelist? && !e.Restart?
    ensures Streamable(After(rec, e)) && !After(rec, e).unlimited
    ensures rec.progress <= After(rec, e).progress <= Max(rec.progress, rec.size)
    ensures |Served(rec, e)| <= 1
    ensures Served(rec, e) != [] ==>
      var r := Served(rec, e)[0]; rec.progress <= r.lo < r.hi <= After(rec, e).progress && r.hi <= rec.size
  {
  }

  /** What a run of events serves after a stream has reached `progress`. */
  ghost predicate Conserved(progress: nat, ranges: seq<Range>, largest: nat) {
    && Increasing(ranges)
    && (forall i :: 0 <= i < |ranges| ==> progress <= ranges[i].lo && ranges[i].hi <= largest)
    && (TotalLength(ranges) == 0 || progress + TotalLength(ranges) <= largest)
    && TotalLength(ranges) >= 0
  }

  lemma ConservedCons(progress: nat, head: Range, middle: nat, rest: seq<Range>, largest: nat)
    requires progress <= head.lo < head.hi <= middle && head.hi <= largest
    requires Conserved(middle, rest, largest)
    ensures Conserved(progress, [head] + rest, largest)
  {
    var all := [head] + rest;
    assert all[1..] == rest;
    assert forall i :: 1 <= i < |all| ==> all[i] == rest[i - 1];
  }

  lemma ConservedWiden(progress: nat, middle: nat, ranges: seq<Range>, largest: nat, wider: nat)
    requires Conserved(middle, ranges, largest) && progress <= middle && largest <= wider
    ensures Conserved(progress, ranges, wider)
  {
  }

  /** A spent budget with no stream serves nothing more on its own. */
  lemma {:induction false} SpentServesNothing(rec: Rec, events: seq<Event>)
    requires rec.count > 0 && rec.reader == None && !rec.unlimited
    requires forall e :: e in events ==> !e.Clear? && !e.Whitelist? && !e.Manual?
    ensures Ranges(rec, events) == []
    decreases |events|
  {
    if events != [] {
      SpentServesNothing(After(rec, events[0]), events[1..]);
    }
  }

  lemma {:induction false} ConservationFrom(rec: Rec, events: seq<Event>)
    requires Streamable(rec) && !rec.unlimited && OneCycle(rec, events)
    ensures Conserved(rec.progress, Ranges(rec, events), LargestSize(rec, events))
    decreases |events|
  {
    if events != [] {
      var e, later := events[0], events[1..];
      var next := After(rec, e);
      assert !e.Clear? && !e.Whitelist?;
      if e.Restart? && rec.count > 0 {
        assert events == [e] + later;
        RestartConserves(rec, e, later);
      } else {
        if e.Restart? {
          UntouchedRestart(rec, e);
        } else {
          StepConserves(rec, e);
        }
        ConservationFrom(next, later);
        ConservationCons(rec, e, next, Ranges(next, later), LargestSize(next, later));
      }
    }
  }

  lemma UntouchedRestart(rec: Rec, e: Event)
    requires Streamable(rec) && !rec.unlimited && rec.count == 0 && e.Restart?
    ensures Streamable(After(rec, e)) && !After(rec, e).unlimited && After(rec, e).progress == rec.progress
    ensures Served(rec, e) == []
  {
  }

  lemma RestartConserves(rec: Rec, e: Event, later: seq<Event>)
    requires !rec.unlimited && rec.count > 0 && e.Restart? && SameBudget([e] + later) && NoManual(later)
    ensures Conserved(rec.progress, Ranges(rec, [e] + later), LargestSize(rec, [e] + later))
  {
    assert ([e] + later)[1..] == later && forall x :: x in later ==> x in [e] + later;
    SpentServesNothing(After(rec, e), later);
  }

  lemma ConservationCons(rec: Rec, e: Event, next: Rec, rest: seq<Range>, largest: nat)
    requires rec.progress <= next.progress
    requires |Served(rec, e)| <= 1
    requires Served(rec, e) != [] ==>
      var r := Served(rec, e)[0]; rec.progress <= r.lo < r.hi <= next.progress && r.hi <= rec.size
    requires Conserved(next.progress, rest, largest)
    ensures Conserved(rec.progress, Served(rec, e) + rest, if rec.size <= largest then largest else rec.size)
  {
    var head := Served(rec, e);
    var wider := if rec.size <= largest then largest else rec.size;
    ConservedWiden(next.progress, next.progress, rest, largest, wider);
    if head == [] {
      assert head + rest == rest;
      ConservedWiden(rec.progress, next.progress, rest, largest, wider);
    } else {
      ConservedCons(rec.progress, head[0], next.progress, rest, wider);
      assert head == [head[0]];
    }
  }

  /**
   * Forward-only conservation. From a fresh budget on, the byte ranges that reads are granted come in
   * increasing order and never overlap, and together they are no longer than the largest size the
   * record had, whatever manual grants, re-adds, rotations, size changes and restarts come between, so
   * long as no manual grant follows a restart that found the budget spent.
   */
  lemma ForwardOnlyConservation(rec: Rec, events: seq<Event>)
    requires !rec.unlimited && rec.count == 0 && Streamable(rec)
    requires OneCycle(rec, events)
    ensures Increasing(Ranges(rec, events))
    ensures TotalLength(Ranges(rec, events)) <= LargestSize(rec, events)
  {
    ConservationFrom(rec, events);
  }

  /** The `i`-th event is a granted read, and it asks for byte `b` of the file as it is then. */
  predicate ServesByte(rec: Rec, events: seq<Event>, i: nat, b: nat) {
    && i < |events| && events[i].Read?
    && var now := AfterAll(rec, events[..i]);
       && Decide(now, events[i].pid, events[i].observed, events[i].offset, events[i].lockdown).Granted?
       && Asks(events[i].offset, events[i].size, now.size, b)
  }

  predicate InRanges(ranges: seq<Range>, b: nat) {
    exists k :: 0 <= k < |ranges| && ranges[k].lo <= b < ranges[k].hi
  }

  lemma {:induction false} RangesAppend(rec: Rec, a: seq<Event>, b: seq<Event>)
    ensures Ranges(rec, a + b) == Ranges(rec, a) + Ranges(AfterAll(rec, a), b)
    decreases |a|
  {
    if a == [] {
      assert a + b == b;
    } else {
      assert (a + b)[1..] == a[1..] + b;
      RangesAppend(After(rec, a[0]), a[1..], b);
    }
  }

  /** A byte served is in the range of its own event, and so in the part of the run that event belongs to. */
  lemma ServedIsInRanges(rec: Rec, events: seq<Event>, i: nat, b: nat)
    requires ServesByte(rec, events, i, b)
    ensures InRanges(Ranges(AfterAll(rec, events[..i]), events[i..]), b)
    ensures InRanges(Ranges(rec, events[..i + 1]), b)
  {
    var now := AfterAll(rec, events[..i]);
    var range := Asked(events[i].offset, events[i].size, now.size);
    assert Served(now, events[i]) == [range] && range.lo <= b < range.hi;
    assert Ranges(now, events[i..])[0] == range;
    RangesAppend(rec, events[..i], [events[i]]);
    assert events[..i] + [events[i]] == events[..i + 1];
    assert Ranges(now, [events[i]]) == [range] + Ranges(After(now, events[i]), []);
    assert Ranges(rec, events[..i + 1])[|Ranges(rec, events[..i])|] == range;
  }

  lemma ApartByte(early: seq<Range>, late: seq<Range>, b: nat)
    requires Increasing(early + late) && InRanges(early, b)
    ensures !InRanges(late, b)
  {
    var k :| 0 <= k < |early| && early[k].lo <= b < early[k].hi;
    forall m | 0 <= m < |late| ensures !(late[m].lo <= b < late[m].hi) {
      assert (early + late)[k].hi <= (early + late)[|early| + m].lo;
    }
  }

  lemma InMoreRanges(a: seq<Range>, more: seq<Range>, b: nat)
    requires InRanges(a, b)
    ensures InRanges(a + more, b)
  {
    var k :| 0 <= k < |a| && a[k].lo <= b < a[k].hi;
    assert (a + more)[k] == a[k];
  }

  /** What has been served by an event has been served by every later one. */
  lemma ServedBefore(rec: Rec, events: seq<Event>, i: nat, j: nat, b: nat)
    requires ServesByte(rec, events, i, b) && i < j <= |events|
    ensures InRanges(Ranges(rec, events[..j]), b)
  {
    ServedIsInRanges(rec, events, i, b);
    assert events[..j] == events[..i + 1] + events[i + 1..j];
    RangesAppend(rec, events[..i + 1], events[i + 1..j]);
    InMoreRanges(Ranges(rec, events[..i + 1]), Ranges(AfterAll(rec, events[..i + 1]), events[i + 1..j]), b);
  }

  lemma IncreasingParts(rec: Rec, a: seq<Event>, b: seq<Event>)
    requires Increasing(Ranges(rec, a + b))
    ensures Increasing(Ranges(rec, a) + Ranges(AfterAll(rec, a), b))
  {
    RangesAppend(rec, a, b);
  }

  lemma ServedAfter(rec: Rec, events: seq<Event>, j: nat, b: nat)
    requires j <= |events|
    ensures ServesByte(rec, events, j, b) ==> InRanges(Ranges(AfterAll(rec, events[..j]), events[j..]), b)
  {
    if ServesByte(rec, events, j, b) {
      ServedIsInRanges(rec, events, j, b);
    }
  }

  /** Where the ranges increase no two reads are served the same byte. */
  lemma IncreasingServesOnce(rec: Rec, events: seq<Event>, i: nat, j: nat, b: nat)
    requires Increasing(Ranges(rec, events)) && i < j < |events| && ServesByte(rec, events, i, b)
    ensures !ServesByte(rec, events, j, b)
  {
    assert events[..j] + events[j..] == events;
    IncreasingParts(rec, events[..j], events[j..]);
    ServedBefore(rec, events, i, j, b);
    ApartByte(Ranges(rec, events[..j]), Ranges(AfterAll(rec, events[..j]), events[j..]), b);
    ServedAfter(rec, events, j, b);
  }

  /** So within a cycle no two reads are served the same byte. */
  lemma NoByteServedTwice(rec: Rec, events: seq<Event>, i: nat, j: nat, b: nat)
    requires !rec.unlimited && rec.count == 0 && Streamable(rec) && OneCycle(rec, events)
    requires i < j < |events| && ServesByte(rec, events, i, b)
    ensures !ServesByte(rec, events, j, b)
  {
    ForwardOnlyConservation(rec, events);
    IncreasingServesOnce(rec, events, i, j, b);
  }

  // ── what a manual grant after a restart reopens ────────────────

  lemma {:induction false} WithoutRestartIsOneCycle(rec: Rec, events: seq<Event>)
    requires SameBudget(events) && NoRestart(events)
    ensures OneCycle(rec, events)
    decreases |events|
  {
    if events != [] {
      assert events[0] in events && forall e :: e in events[1..] ==> e in events;
      WithoutRestartIsOneCycle(After(rec, events[0]), events[1..]);
    }
  }

  lemma {:induction false} StaysStreamable(rec: Rec, events: seq<Event>)
    requires Streamable(rec) && !rec.unlimited && SameBudget(events) && NoRestart(events)
    ensures Streamable(AfterAll(rec, events)) && !AfterAll(rec, events).unlimited
    decreases |events|
  {
    if events != [] {
      assert events[0] in events && forall e :: e in events[1..] ==> e in events;
      StaysStreamable(After(rec, events[0]), events[1..]);
    }
  }

  /** Whatever has served a byte has spent the budget. */
  lemma {:induction false} ServingSpends(rec: Rec, events: seq<Event>)
    requires SameBudget(events) && (Ranges(rec, events) != [] || rec.count > 0)
    requires Streamable(rec) && !rec.unlimited && NoRestart(events)
    ensures AfterAll(rec, events).count > 0
    decreases |events|
  {
    if events != [] {
      assert events[0] in events && forall e :: e in events[1..] ==> e in events;
      StepConserves(rec, events[0]);
      ServingSpends(After(rec, events[0]), events[1..]);
    }
  }

  /** A manual grant of nothing to any process, after the restart, lets it read from the start. */
  lemma ManualReopens(rec: Rec, size: Usize, pid: nat)
    requires !rec.unlimited && rec.count > 0 && size > 0
    ensures
      Ranges(rec, [Restart(size), Manual(pid, 0, 0), Read(pid, None, 0, size, false)]) == [Range(0, size)]
  {
    var restart, manual, read := Restart(size), Manual(pid, 0, 0), Read(pid, None, 0, size, false);
    var events := [restart, manual, read];
    assert events[1..] == [manual, read] && [manual, read][1..] == [read] && [read][1..] == [];
    var granted := After(After(rec, restart), manual);
    assert Served(granted, read) == [Range(0, size)];
    assert Ranges(granted, [read]) == [Range(0, size)];
    assert Served(After(rec, restart), manual) == [] && Served(rec, restart) == [];
  }

  /**
   * That order is excluded for a reason, and for exactly this one: a restart in a cycle so far without one can be
   * followed, without another restart, by events that serve a byte again if and only if a byte had been served.
   */
  lemma RestartReopensServedBytes(rec: Rec, before: seq<Event>, size: Usize)
    requires !rec.unlimited && rec.count == 0 && Streamable(rec) && size > 0
    requires SameBudget(before) && NoRestart(before)
    ensures Ranges(rec, before) != [] <==>
      exists after ::
        SameBudget(after) && NoRestart(after) && !Increasing(Ranges(rec, before + [Restart(size)] + after))
  {
    var restart := Restart(size);
    if Ranges(rec, before) != [] {
      var after := [Manual(0, 0, 0), Read(0, None, 0, size, false)];
      ReopenedAfter(rec, before, size, 0);
      assert SameBudget(after) && NoRestart(after);
    } else {
      forall after | SameBudget(after) && NoRestart(after)
        ensures Increasing(Ranges(rec, before + [restart] + after))
      {
        NothingToReopen(rec, before, size, after);
      }
    }
  }

  lemma ReopenedAfter(rec: Rec, before: seq<Event>, size: Usize, pid: nat)
    requires !rec.unlimited && rec.count == 0 && Streamable(rec) && size > 0
    requires SameBudget(before) && NoRestart(before) && Ranges(rec, before) != []
    ensures !Increasing(Ranges(rec, before + [Restart(size)] + [Manual(pid, 0, 0), Read(pid, None, 0, size, false)]))
  {
    var after := [Manual(pid, 0, 0), Read(pid, None, 0, size, false)];
    var events := before + [Restart(size)] + after;
    assert events == before + ([Restart(size)] + after);
    assert [Restart(size)] + after == [Restart(size), Manual(pid, 0, 0), Read(pid, None, 0, size, false)];
    RangesAppend(rec, before, [Restart(size)] + after);
    StaysStreamable(rec, before);
    ServingSpends(rec, before);
    ManualReopens(AfterAll(rec, before), size, pid);
    WithoutRestartIsOneCycle(rec, before);
    ForwardOnlyConservation(rec, before);
    var ranges := Ranges(rec, events);
    assert ranges[0] == Ranges(rec, before)[0] && ranges[|ranges| - 1] == Range(0, size);
    assert ranges[0].lo < ranges[0].hi;
  }

  lemma NothingToReopen(rec: Rec, before: seq<Event>, size: Usize, after: seq<Event>)
    requires !rec.unlimited && rec.count == 0 && Streamable(rec)
    requires SameBudget(before) && NoRestart(before) && Ranges(rec, before) == []
    requires SameBudget(after) && NoRestart(after)
    ensures Increasing(Ranges(rec, before + [Restart(size)] + after))
  {
    var here := AfterAll(rec, before);
    var next := Reloaded(here, size);
    assert before + [Restart(size)] + after == before + ([Restart(size)] + after);
    RangesAppend(rec, before, [Restart(size)] + after);
    StaysStreamable(rec, before);
    assert ([Restart(size)] + after)[1..] == after;
    assert Ranges(here, [Restart(size)] + after) == [] + Ranges(next, after);
    WithoutRestartIsOneCycle(next, after);
    ConservationFrom(next, after);
  }
}
