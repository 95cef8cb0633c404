/** Inode numbers over a whole run of the data daemon: what a number names, and what opening through it can yield. */
module Identity {
  import opened Text
  import opened Paths
  import opened Tree
  import opened Mount
  import opened Hub
  import opened Store

  // ── one open ───────────────────────────────────────────────────

  /** The file the policy daemon found behind a name, as its own descriptor reports it. */
  datatype HostFile = HostFile(identity: Mount.Identity, regular: bool)

  datatype Verdict = Pass | Veto(errno: nat)

  /** `Allow` carries the descriptor, identified by the file it is open on. */
  datatype Reply = Allow(descriptor: Mount.Identity) | Deny(errno: nat) | Stale | Gone

  datatype Opened = Opened(descriptor: Mount.Identity) | Failed(errno: nat)

  /** How the answer travels: whole, without its descriptor, as the error that says so, or not at all. */
  datatype Wire = Delivered | DescriptorLost | PassFailed | Unreachable

  /** One attempt to open: the mode asked for, what the host has, what the policy says, how the answer travels. */
  datatype Try = Try(readOnly: bool, found: Option<HostFile>, verdict: Verdict, wire: Wire)

  const ENOENT: nat := 2
  const EIO: nat := 5
  const EACCES: nat := 13
  const EISDIR: nat := 21
  const ESTALE: nat := 116

  /** The policy daemon opens the file first, checks what it opened, and only then asks the policy. */
  function OpenSecret(found: Option<HostFile>, wanted: Mount.Identity, verdict: Verdict): Reply {
    if found.None? || !found.value.regular then Gone
    else if found.value.identity != wanted then Stale
    else match verdict
      case Pass => Allow(found.value.identity)
      case Veto(errno) => Deny(errno)
  }

  /** What the data daemon answers to an open through `ino`. */
  function Answer(s: State, ino: nat, try: Try): Opened {
    if !try.readOnly then Failed(EACCES)
    else if ino !in s.idents then Failed(ENOENT)
    else if !IsFile(s.tree, s.idents[ino].path) then Failed(EISDIR)
    else if s.idents[ino].identity.None? then Failed(ESTALE)
    else if try.wire.Unreachable? then Failed(EIO)
    else match OpenSecret(try.found, s.idents[ino].identity.value, try.verdict)
      case Allow(descriptor) => if try.wire.Delivered? then Opened(descriptor) else Failed(EIO)
      case Deny(errno) => Failed(errno)
      case Stale => Failed(ESTALE)
      case Gone => Failed(ENOENT)
  }

  /** What a stat through `ino` shows: the attributes of the file it was minted for, or none at all. */
  datatype Attr = DirAttr | FileAttr(identity: Mount.Identity) | NoAttr(errno: nat)

  class Mounted {
    const store: Store

    constructor (s: Store)
      ensures store == s
    {
      store := s;
    }

    /** An open succeeds exactly on the file its number was minted for, if allowed and if the answer arrives. */
    method Open(ino: nat, try: Try) returns (r: Opened)
      ensures r == Answer(store.View(), ino, try)
      ensures r.Opened? <==>
        && try.readOnly && try.verdict.Pass? && try.wire.Delivered?
        && ino in store.idents && IsFile(store.tree, store.idents[ino].path)
        && try.found.Some? && try.found.value.regular && store.idents[ino].identity == Some(try.found.value.identity)
      ensures r.Opened? ==> store.idents[ino].identity == Some(r.descriptor)
    {
      if !try.readOnly {
        return Failed(EACCES);
      }
      if ino !in store.idents {
        return Failed(ENOENT);
      }
      var id := store.idents[ino];
      if !IsFile(store.tree, id.path) {
        return Failed(EISDIR);
      }
      if id.identity.None? {
        return Failed(ESTALE);
      }
      if try.wire.Unreachable? {
        return Failed(EIO);
      }
      var reply := OpenSecret(try.found, id.identity.value, try.verdict);
      match reply
      case Allow(descriptor) => return if try.wire.Delivered? then Opened(descriptor) else Failed(EIO);
      case Deny(errno) => return Failed(errno);
      case Stale => return Failed(ESTALE);
      case Gone => return Failed(ENOENT);
    }

    /** A stat without a descriptor shows the file a number was minted for, or nothing. */
    method GetAttr(ino: nat, found: Option<HostFile>) returns (a: Attr)
      ensures a.FileAttr? <==>
        && ino != ROOT_FINO && ino in store.idents && IsFile(store.tree, store.idents[ino].path)
        && found.Some? && found.value.regular && store.idents[ino].identity == Some(found.value.identity)
      ensures a.FileAttr? ==> store.idents[ino].identity == Some(a.identity)
      ensures a.DirAttr? <==>
        ino == ROOT_FINO || (ino in store.idents && !IsFile(store.tree, store.idents[ino].path))
      ensures a.NoAttr? ==>
        a.errno == if ino !in store.idents || (found.Some? && !found.value.regular) then ENOENT else ESTALE
    {
      if ino == ROOT_FINO {
        return DirAttr;
      }
      if ino !in store.idents {
        return NoAttr(ENOENT);
      }
      var id := store.idents[ino];
      if !IsFile(store.tree, id.path) {
        return DirAttr;
      }
      if found.None? {
        return NoAttr(ESTALE);
      }
      if !found.value.regular {
        return NoAttr(ENOENT);
      }
      if id.identity != Some(found.value.identity) {
        return NoAttr(ESTALE);
      }
      return FileAttr(found.value.identity);
    }

    /** A lookup hands out a number for the file that is there now, and records which one that is. */
    method Lookup(parent: nat, tag: string, found: Option<HostFile>) returns (fino: Option<nat>)
      requires WellFormed(store.View())
      modifies store
      ensures WellFormed(store.View())
      ensures fino.Some? <==>
        parent == ROOT_FINO && tag in old(store.labels).inner && found.Some? && found.value.regular
      ensures fino.None? ==> store.View() == old(store.View())
      ensures fino.Some? ==>
        var path := Components(old(store.labels).inner[tag]);
        && store.View() == Mount.Observe(old(store.View()), path, found.value.identity)
        && fino.value in store.idents && store.idents[fino.value] == FinoRecord(Some(found.value.identity), path)
    {
      var child := store.Child(parent, tag);
      if child.None? {
        return None;
      }
      var path := store.idents[child.value].path;
      if found.None? || !found.value.regular {
        return None;
      }
      ObserveKeeps(store.View(), path, found.value.identity);
      fino := store.Observe(path, found.value.identity);
    }
  }

  // ── whole runs ─────────────────────────────────────────────────

  /** What changes the store: a control command, or a host identity seen at a path. */
  datatype Act = Heard(command: Command) | Sight(path: Path, identity: Mount.Identity)

  ghost function Did(s: State, a: Act): State {
    match a
    case Heard(c) => Applied(s, c)
    case Sight(path, identity) => Mount.Observe(s, path, identity)
  }

  ghost function Ran(s: State, acts: seq<Act>): State {
    if acts == [] then s else Did(Ran(s, acts[..|acts| - 1]), acts[|acts| - 1])
  }

  /** From `s` to `v` numbers only ever disappear or are new: one that `s` could have handed out means what it did. */
  ghost predicate NumbersKept(s: State, v: State) {
    && s.next <= v.next
    && (forall f :: f in v.idents && f <= s.next ==> f in s.idents && v.idents[f] == s.idents[f])
  }

  lemma DidKeeps(s: State, a: Act)
    requires Sound(s)
    ensures Sound(Did(s, a)) && NumbersKept(s, Did(s, a))
  {
    match a
    case Sight(path, identity) => ObserveKeeps(s, path, identity);
    case Heard(c) =>
      match c
      case Serve(name, inner, mode) => ServeKeeps(s, name, inner, mode);
      case Withdraw(name) => RemoveKeeps(s, name);
  }

  /** Whatever is served, removed and seen, in whatever order, by whatever names. */
  lemma {:induction false} RanKeeps(s: State, acts: seq<Act>)
    requires Sound(s)
    ensures Sound(Ran(s, acts)) && NumbersKept(s, Ran(s, acts))
  {
    if acts != [] {
      var before := Ran(s, acts[..|acts| - 1]);
      RanKeeps(s, acts[..|acts| - 1]);
      DidKeeps(before, acts[|acts| - 1]);
    }
  }

  lemma EmptyIsSound()
    ensures WellFormed(EMPTY)
  {
  }

  /** The number is known, for a file with an identity, and the open is for reading. */
  predicate Asked(s: State, ino: nat, try: Try) {
    try.readOnly && ino in s.idents && IsFile(s.tree, s.idents[ino].path) && s.idents[ino].identity.Some?
  }

  /** The very file the number was minted for is there. */
  predicate StillThere(s: State, ino: nat, try: Try)
    requires ino in s.idents
  {
    try.found.Some? && try.found.value.regular && Some(try.found.value.identity) == s.idents[ino].identity
  }

  /** Each failure of an open by its cause: the access mode, the number, the transport, the host's file, the policy. */
  lemma FailuresByCause(s: State, ino: nat, try: Try)
    ensures !try.readOnly ==> Answer(s, ino, try) == Failed(13)
    ensures try.readOnly && ino !in s.idents ==> Answer(s, ino, try) == Failed(2)
    ensures try.readOnly && ino in s.idents && !IsFile(s.tree, s.idents[ino].path) ==> Answer(s, ino, try) == Failed(21)
    ensures try.readOnly && ino in s.idents && IsFile(s.tree, s.idents[ino].path) && s.idents[ino].identity.None? ==>
      Answer(s, ino, try) == Failed(116)
    ensures Asked(s, ino, try) && try.wire.Unreachable? ==> Answer(s, ino, try) == Failed(5)
    ensures Asked(s, ino, try) && !try.wire.Unreachable? ==>
      var a := Answer(s, ino, try);
      && (try.found.None? || !try.found.value.regular ==> a == Failed(2))
      && (try.found.Some? && try.found.value.regular && !StillThere(s, ino, try) ==> a == Failed(116))
      && (StillThere(s, ino, try) && try.verdict.Veto? ==> a == Failed(try.verdict.errno))
      && (StillThere(s, ino, try) && try.verdict.Pass? && !try.wire.Delivered? ==> a == Failed(5))
  {
  }

  /** A successful open yields the very file its number was minted for. */
  lemma OpenedIsRecorded(s: State, ino: nat, try: Try)
    requires Answer(s, ino, try).Opened?
    ensures ino in s.idents && s.idents[ino].identity.Some?
    ensures Answer(s, ino, try) == Opened(s.idents[ino].identity.value)
  {
  }

  /**
   * Two successful opens through the same number, at any two points of a run, yield descriptors of the same
   * host file, and the number stands for the same path at both.
   */
  lemma OneNumberOneFile(acts: seq<Act>, more: seq<Act>, ino: nat, first: Try, later: Try)
    requires Answer(Ran(EMPTY, acts), ino, first).Opened?
    requires Answer(Ran(Ran(EMPTY, acts), more), ino, later).Opened?
    ensures Answer(Ran(EMPTY, acts), ino, first) == Answer(Ran(Ran(EMPTY, acts), more), ino, later)
    ensures Ran(EMPTY, acts).idents[ino] == Ran(Ran(EMPTY, acts), more).idents[ino]
  {
    var s := Ran(EMPTY, acts);
    OpenedIsRecorded(s, ino, first);
    OpenedIsRecorded(Ran(s, more), ino, later);
    RanKeeps(EMPTY, acts);
    RanKeeps(s, more);
  }

  /** A number minted without an identity never opens, whatever is found on the host and whatever the policy says. */
  lemma GhostsNeverOpen(acts: seq<Act>, more: seq<Act>, ino: nat, try: Try)
    requires ino in Ran(EMPTY, acts).idents && Ran(EMPTY, acts).idents[ino].identity == None
    ensures Answer(Ran(Ran(EMPTY, acts), more), ino, try).Failed?
  {
    RanKeeps(EMPTY, acts);
    RanKeeps(Ran(EMPTY, acts), more);
  }

  /** A number that was within the counter and is not recorded, or no longer, is never handed out again. */
  lemma NumbersNeverReturn(acts: seq<Act>, more: seq<Act>, ino: nat, try: Try)
    requires ino <= Ran(EMPTY, acts).next && ino !in Ran(EMPTY, acts).idents
    ensures ino !in Ran(Ran(EMPTY, acts), more).idents
    ensures Answer(Ran(Ran(EMPTY, acts), more), ino, try).Failed?
  {
    RanKeeps(EMPTY, acts);
    RanKeeps(Ran(EMPTY, acts), more);
  }

  /** When another file has taken a path, a number minted for the one before is refused, and the new one opens. */
  lemma ReplacedIsStale(s: State, path: Path, identity: Mount.Identity, ino: nat, verdict: Verdict)
    requires Sound(s) && IsFile(s.tree, path) && ino == s.tree[path].fino
    requires s.idents[ino].identity.Some? && s.idents[ino].identity != Some(identity)
    ensures
      var v := Mount.Observe(s, path, identity);
      var found := Some(HostFile(identity, true));
      && v.tree[path].fino != ino && v.tree[path].fino !in s.idents
      && Answer(v, ino, Try(true, found, verdict, Delivered)) == Failed(ESTALE)
      && Answer(v, v.tree[path].fino, Try(true, found, Pass, Delivered)) == Opened(identity)
  {
  }
}
