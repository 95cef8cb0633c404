/**
 * The data daemon's store refines a plain map from name to label and mode, in which a serve is refused when a
 * name inside or around its own is there. With no name inside another nothing is refused, and replaying the
 * control log converges, however the daemon came by what it already holds.
 */
module Replay {
  import opened Text
  import opened Paths
  import opened Tree
  import opened Mount
  import opened Hub
  import opened Store
  import opened Identity

  /** What a store serves: each labelled file under its name. */
  ghost function Served(s: State): map<string, Entry> {
    map o | o in s.labels.outer && IsFile(s.tree, Components(o)) :: Entry(s.labels.outer[o], s.tree[Components(o)].mode)
  }

  /** One name lies inside the other. */
  predicate Related(m: string, n: string) {
    m != n && (Components(m) <= Components(n) || Components(n) <= Components(m))
  }

  ghost predicate OwnTags(names: set<string>, tags: string -> string) {
    forall m, n :: m in names && n in names && m != n ==> tags(m) != tags(n)
  }

  /** Canonical names, each with a label of its own. */
  ghost predicate NameSpace(names: set<string>, tags: string -> string) {
    (forall n :: n in names ==> Canonical(n)) && OwnTags(names, tags)
  }

  ghost predicate PrefixFree(names: set<string>) {
    forall m, n :: m in names && n in names ==> !Related(m, n)
  }

  /** A name space with no name inside another. */
  ghost predicate Apart(names: set<string>, tags: string -> string) {
    NameSpace(names, tags) && PrefixFree(names)
  }

  /** Something inside or around `n` is served. */
  ghost predicate Contested(view: map<string, Entry>, n: string) {
    exists m :: m in view && Related(m, n)
  }

  /** What a command does to a map in which a contested name is refused. */
  ghost function Minded(view: map<string, Entry>, c: Command): map<string, Entry> {
    if c.Serve? && Contested(view, c.name) then view else Told(view, c)
  }

  ghost function MindedAll(view: map<string, Entry>, log: seq<Command>): map<string, Entry> {
    if log == [] then view else Minded(MindedAll(view, log[..|log| - 1]), log[|log| - 1])
  }

  ghost predicate Speaks(c: Command, names: set<string>, tags: string -> string) {
    c.name in names && (c.Serve? ==> c.inner == tags(c.name))
  }

  /** A well-formed store that serves nothing outside the name space, and everything under its own label. */
  ghost predicate Within(s: State, names: set<string>, tags: string -> string) {
    && WellFormed(s) && FilesLabelled(s)
    && (forall o :: o in s.labels.outer ==> o in names && s.labels.outer[o] == tags(o))
  }

  // ── one command ────────────────────────────────────────────────

  /** A served name inside or around another is a file on its way, or makes a directory in its place. */
  lemma ContestedIsRefused(s: State, name: string, m: string)
    requires WellFormed(s) && Canonical(name) && Canonical(m)
    requires IsFile(s.tree, Components(m)) && Related(m, name)
    ensures Refused(s.tree, Components(name))
  {
    var path, other := Components(name), Components(m);
    CanonicalPathsDiffer(m, name);
    if other <= path {
      assert path[..|other|] == other;
    } else {
      PrefixesPresent(s.tree, other, |path|);
      assert other[..|path|] == path;
    }
  }

  /** What refuses a name is a file on its way or below its place. */
  lemma RefusedBy(t: Tree, path: Path) returns (p: Path)
    requires Tidy(t) && path != [] && Refused(t, path)
    ensures IsFile(t, p) && p != path && (p <= path || path <= p)
  {
    if Blocked(t, path) {
      var i :| 0 <= i < |path| && IsFile(t, path[..i]);
      p := path[..i];
    } else {
      p := FileBelow(t, path);
    }
  }

  /** A serve is refused exactly when the name is contested by what is served. */
  lemma RefusedIsContested(s: State, name: string)
    requires WellFormed(s) && FilesLabelled(s) && Canonical(name)
    ensures Refused(s.tree, Components(name)) <==> Contested(Served(s), name)
  {
    if Refused(s.tree, Components(name)) {
      var p := RefusedBy(s.tree, Components(name));
      assert Join(p, "/") in Served(s) && Related(Join(p, "/"), name);
    }
    if Contested(Served(s), name) {
      var m :| m in Served(s) && Related(m, name);
      ContestedIsRefused(s, name, m);
    }
  }

  lemma NeverTaken(l: Labels, names: set<string>, tags: string -> string, name: string)
    requires l.Bijective() && OwnTags(names, tags) && name in names
    requires forall o :: o in l.outer ==> o in names && l.outer[o] == tags(o)
    ensures !l.Taken(name, tags(name))
  {
    forall o | o in l.outer && o != name ensures l.outer[o] != tags(name) {}
  }

  /** What an accepted serve does to the labels and to the files. */
  lemma AcceptedServe(s: State, name: string, tag: string, mode: nat, p: Path)
    requires !Refused(s.tree, Components(name)) && !s.labels.Taken(name, tag) && Canonical(name) && s.labels.Bijective()
    ensures
      var v := Mount.Serve(s, name, tag, mode);
      && v.labels.outer == s.labels.outer[name := tag]
      && (IsFile(v.tree, p) <==> IsFile(s.tree, p) || p == Components(name))
      && (IsFile(v.tree, p) ==> v.tree[p].mode == if p == Components(name) then mode else s.tree[p].mode)
  {
    PairBijective(s.labels, name, tag);
    PlacedFiles(s, Components(name), mode, p);
  }

  lemma AcceptedServed(s: State, name: string, tag: string, mode: nat)
    requires !Refused(s.tree, Components(name)) && !s.labels.Taken(name, tag) && Canonical(name) && s.labels.Bijective()
    requires forall o :: o in s.labels.outer && o != name ==> Components(o) != Components(name)
    ensures Served(Mount.Serve(s, name, tag, mode)) == Served(s)[name := Entry(tag, mode)]
  {
    var v := Mount.Serve(s, name, tag, mode);
    AcceptedServe(s, name, tag, mode, Components(name));
    forall o | o in s.labels.outer && o != name
      ensures IsFile(v.tree, Components(o)) <==> IsFile(s.tree, Components(o))
      ensures IsFile(v.tree, Components(o)) ==> v.tree[Components(o)].mode == s.tree[Components(o)].mode
    {
      AcceptedServe(s, name, tag, mode, Components(o));
    }
    SameServed(s, v, name, Some(Entry(tag, mode)));
  }

  lemma OthersElsewhere(s: State, name: string)
    requires LabelsServed(s) && Canonical(name)
    ensures forall o :: o in s.labels.outer && o != name ==> Components(o) != Components(name)
  {
    forall o | o in s.labels.outer && o != name ensures Components(o) != Components(name) {
      CanonicalPathsDiffer(o, name);
    }
  }

  /** Two stores that differ in one name's label and mode serve the same but for that name. */
  lemma SameServed(s: State, v: State, name: string, entry: Option<Entry>)
    requires v.labels.outer ==
      match entry case Some(e) => s.labels.outer[name := e.inner] case None => s.labels.outer - {name}
    requires forall o :: o in s.labels.outer && o != name ==>
      && (IsFile(v.tree, Components(o)) <==> IsFile(s.tree, Components(o)))
      && (IsFile(v.tree, Components(o)) ==> v.tree[Components(o)].mode == s.tree[Components(o)].mode)
    requires entry.Some? ==> IsFile(v.tree, Components(name)) && v.tree[Components(name)].mode == entry.value.mode
    ensures Served(v) == match entry case Some(e) => Served(s)[name := e] case None => Served(s) - {name}
  {
    var expected := match entry case Some(e) => Served(s)[name := e] case None => Served(s) - {name};
    forall o ensures o in Served(v) <==> o in expected {
      assert o != name ==> (o in v.labels.outer <==> o in s.labels.outer);
    }
    forall o | o in expected ensures Served(v)[o] == expected[o] {
      assert o in Served(v);
    }
  }

  lemma AcceptedWithin(s: State, names: set<string>, tags: string -> string, name: string, mode: nat)
    requires Within(s, names, tags) && NameSpace(names, tags) && name in names
    requires !Refused(s.tree, Components(name))
    ensures Within(Mount.Serve(s, name, tags(name), mode), names, tags)
    ensures Served(Mount.Serve(s, name, tags(name), mode)) == Served(s)[name := Entry(tags(name), mode)]
  {
    assert Canonical(name);
    NeverTaken(s.labels, names, tags, name);
    ServeKeeps(s, name, tags(name), mode);
    ServeLabelsFiles(s, name, tags(name), mode);
    AcceptedServe(s, name, tags(name), mode, []);
    OthersElsewhere(s, name);
    AcceptedServed(s, name, tags(name), mode);
  }

  /** In any canonical name space, a serve is refused when its name is contested, and else sets just that name. */
  lemma ServeMinds(s: State, names: set<string>, tags: string -> string, name: string, mode: nat)
    requires Within(s, names, tags) && NameSpace(names, tags) && name in names
    ensures Within(Mount.Serve(s, name, tags(name), mode), names, tags)
    ensures Served(Mount.Serve(s, name, tags(name), mode)) == Minded(Served(s), Command.Serve(name, tags(name), mode))
  {
    assert Canonical(name);
    RefusedIsContested(s, name);
    if !Refused(s.tree, Components(name)) {
      AcceptedWithin(s, names, tags, name, mode);
    } else {
      assert Mount.Serve(s, name, tags(name), mode) == s;
    }
  }

  lemma ServedWithin(s: State, names: set<string>, tags: string -> string)
    requires Within(s, names, tags)
    ensures Served(s).Keys <= names
  {
  }

  /** With no name inside another a serve is never refused: it sets the name's label and mode and nothing else. */
  lemma ServeRefines(s: State, names: set<string>, tags: string -> string, name: string, mode: nat)
    requires Within(s, names, tags) && Apart(names, tags) && name in names
    ensures Within(Mount.Serve(s, name, tags(name), mode), names, tags)
    ensures Served(Mount.Serve(s, name, tags(name), mode)) == Served(s)[name := Entry(tags(name), mode)]
  {
    ServeMinds(s, names, tags, name, mode);
    ServedWithin(s, names, tags);
  }

  lemma RemoveServed(s: State, name: string)
    requires Mount.Remove(s, name).labels.outer == s.labels.outer - {name}
    requires forall o :: o in s.labels.outer && o != name ==> Components(o) != Components(name)
    ensures Served(Mount.Remove(s, name)) == Served(s) - {name}
  {
    var v := Mount.Remove(s, name);
    forall o | o in s.labels.outer && o != name
      ensures IsFile(v.tree, Components(o)) <==> IsFile(s.tree, Components(o))
      ensures IsFile(v.tree, Components(o)) ==> v.tree[Components(o)] == s.tree[Components(o)]
    {
      RemoveFiles(s, name, Components(o));
    }
    SameServed(s, v, name, None);
  }

  lemma WithdrawRefines(s: State, names: set<string>, tags: string -> string, name: string)
    requires Within(s, names, tags) && Canonical(name)
    ensures Within(Mount.Remove(s, name), names, tags)
    ensures Served(Mount.Remove(s, name)) == Served(s) - {name}
  {
    RemoveCanonical(s, name);
    RemoveLabels(s, name);
    OthersElsewhere(s, name);
    RemoveServed(s, name);
  }

  lemma SightServed(s: State, path: Path, identity: Mount.Identity, p: Path)
    ensures IsFile(Mount.Observe(s, path, identity).tree, p) <==> IsFile(s.tree, p)
    ensures IsFile(s.tree, p) ==> Mount.Observe(s, path, identity).tree[p].mode == s.tree[p].mode
  {
  }

  lemma SightRefines(s: State, names: set<string>, tags: string -> string, path: Path, identity: Mount.Identity)
    requires Within(s, names, tags)
    ensures Within(Mount.Observe(s, path, identity), names, tags)
    ensures Served(Mount.Observe(s, path, identity)) == Served(s)
  {
    var v := Mount.Observe(s, path, identity);
    ObserveKeeps(s, path, identity);
    assert v.labels == s.labels;
    assert FilesLabelled(v) by {
      forall p | IsFile(v.tree, p) ensures IsFile(s.tree, p) {
        SightServed(s, path, identity, p);
      }
    }
    SightKeepsServed(s, path, identity);
  }

  lemma SightKeepsServed(s: State, path: Path, identity: Mount.Identity)
    ensures Served(Mount.Observe(s, path, identity)) == Served(s)
  {
    var v := Mount.Observe(s, path, identity);
    assert v.labels == s.labels;
    forall o ensures o in Served(v) <==> o in Served(s) ensures o in Served(s) ==> Served(v)[o] == Served(s)[o] {
      SightServed(s, path, identity, Components(o));
    }
  }

  // ── whole runs ─────────────────────────────────────────────────

  /** The commands among what happened. */
  function Commands(acts: seq<Act>): seq<Command> {
    if acts == [] then []
    else Commands(acts[..|acts| - 1]) + match acts[|acts| - 1] case Heard(c) => [c] case Sight(_, _) => []
  }

  ghost predicate AllSpeak(log: seq<Command>, names: set<string>, tags: string -> string) {
    forall c :: c in log ==> Speaks(c, names, tags)
  }

  lemma AppliedMinds(s: State, names: set<string>, tags: string -> string, c: Command)
    requires Within(s, names, tags) && NameSpace(names, tags) && Speaks(c, names, tags)
    ensures Within(Applied(s, c), names, tags) && Served(Applied(s, c)) == Minded(Served(s), c)
  {
    match c
    case Serve(name, inner, mode) => ServeMinds(s, names, tags, name, mode);
    case Withdraw(name) => WithdrawRefines(s, names, tags, name);
  }

  /**
   * In any canonical name space the store refines the map: after any run of commands and sightings, in whatever
   * order they are interleaved, it serves what the commands alone say, contested serves being refused.
   */
  lemma {:induction false} StoreMindsMap(acts: seq<Act>, names: set<string>, tags: string -> string)
    requires NameSpace(names, tags) && AllSpeak(Commands(acts), names, tags)
    ensures Within(Ran(EMPTY, acts), names, tags)
    ensures Served(Ran(EMPTY, acts)) == MindedAll(map[], Commands(acts))
  {
    if acts == [] {
      EmptyIsSound();
    } else {
      var before, last := acts[..|acts| - 1], acts[|acts| - 1];
      StoreMindsMap(before, names, tags);
      match last
      case Sight(path, identity) =>
        assert Commands(acts) == Commands(before) + [] == Commands(before);
        SightRefines(Ran(EMPTY, before), names, tags, path, identity);
      case Heard(c) =>
        assert c in Commands(acts);
        assert Commands(acts)[..|Commands(before)|] == Commands(before);
        AppliedMinds(Ran(EMPTY, before), names, tags, c);
    }
  }

  lemma {:induction false} MindedWithin(view: map<string, Entry>, log: seq<Command>, names: set<string>)
    requires view.Keys <= names && forall c :: c in log ==> c.name in names
    ensures MindedAll(view, log).Keys <= names
  {
    if log != [] {
      assert log[|log| - 1] in log;
      MindedWithin(view, log[..|log| - 1], names);
    }
  }

  /** With no name inside another nothing is contested, and the map is the plain fold. */
  ghost predicate Uncontested(view: map<string, Entry>) {
    forall m, n :: m in view && n in view ==> !Related(m, n)
  }

  /** Refusing contested serves only leaves names out: what remains is as the last word on it says. */
  lemma {:induction false} MindedIsLess(log: seq<Command>)
    ensures Uncontested(MindedAll(map[], log))
    ensures forall n :: n in MindedAll(map[], log) ==>
      n in Folded(log) && MindedAll(map[], log)[n] == Folded(log)[n]
  {
    if log != [] {
      var front, c := log[..|log| - 1], log[|log| - 1];
      MindedIsLess(front);
      if c.Serve? && Contested(MindedAll(map[], front), c.name) {
        assert c.name !in MindedAll(map[], front);
      }
    }
  }

  lemma {:induction false} MindedIsFolded(log: seq<Command>, names: set<string>)
    requires PrefixFree(names) && forall c :: c in log ==> c.name in names
    ensures MindedAll(map[], log) == Folded(log)
  {
    if log != [] {
      assert log[|log| - 1] in log;
      MindedIsFolded(log[..|log| - 1], names);
      MindedWithin(map[], log[..|log| - 1], names);
    }
  }

  /**
   * The store refines the plain map when no name lies inside another: after any run it serves what folding the
   * commands alone says.
   */
  lemma StoreRefinesMap(acts: seq<Act>, names: set<string>, tags: string -> string)
    requires Apart(names, tags) && AllSpeak(Commands(acts), names, tags)
    ensures Within(Ran(EMPTY, acts), names, tags)
    ensures Served(Ran(EMPTY, acts)) == Folded(Commands(acts))
  {
    StoreMindsMap(acts, names, tags);
    MindedIsFolded(Commands(acts), names);
  }

  lemma {:induction false} FoldedOntoSum(start: map<string, Entry>, a: seq<Command>, b: seq<Command>)
    ensures FoldedOnto(start, a + b) == FoldedOnto(FoldedOnto(start, a), b)
  {
    if b == [] {
      assert a + b == a;
    } else {
      FoldedOntoSum(start, a, b[..|b| - 1]);
      assert (a + b)[..|a + b| - 1] == a + b[..|b| - 1];
    }
  }

  /** A log absorbs any earlier talk about names it mentions itself. */
  lemma LogAbsorbs(earlier: seq<Command>, log: seq<Command>)
    requires forall c :: c in earlier ==> Mentions(log, c.name)
    ensures Folded(earlier + log) == Folded(log)
  {
    FoldedOntoSum(map[], earlier, log);
    forall n ensures n in Folded(earlier + log) <==> n in Folded(log)
      ensures n in Folded(log) ==> Folded(earlier + log)[n] == Folded(log)[n]
    {
      FoldForgetsStart(Folded(earlier), log, n);
      if !Mentions(log, n) {
        assert forall i :: 0 <= i < |earlier| ==> earlier[i] in earlier;
        FoldForgetsStart(map[], earlier, n);
      }
    }
  }

  /**
   * Reconnecting converges. A daemon told any number of pieces of the log before, and now the whole of it, serves
   * the names, labels and modes a fresh daemon told the log once serves; what either has looked up in between
   * makes no difference.
   */
  lemma ReconnectConverges(
    held: seq<Act>, once: seq<Act>, earlier: seq<Command>, log: seq<Command>,
    names: set<string>, tags: string -> string)
    requires Apart(names, tags) && AllSpeak(log, names, tags) && AllSpeak(earlier, names, tags)
    requires forall c :: c in earlier ==> Mentions(log, c.name)
    requires Commands(held) == earlier + log && Commands(once) == log
    ensures Served(Ran(EMPTY, held)) == Served(Ran(EMPTY, once)) == Folded(log)
  {
    assert AllSpeak(earlier + log, names, tags);
    StoreRefinesMap(held, names, tags);
    StoreRefinesMap(once, names, tags);
    LogAbsorbs(earlier, log);
  }

  /**
   * A daemon may hold names from before that the log never mentions, told by a policy daemon that is gone. Those
   * it keeps, as they were; they are exactly what it serves beyond a fresh daemon.
   */
  lemma StaleNamesRemain(
    held: seq<Act>, earlier: seq<Command>, log: seq<Command>, names: set<string>, tags: string -> string, n: string)
    requires Apart(names, tags) && AllSpeak(log, names, tags) && AllSpeak(earlier, names, tags)
    requires Commands(held) == earlier + log
    ensures n in Served(Ran(EMPTY, held)) && n !in Folded(log) <==> n in Folded(earlier) && !Mentions(log, n)
    ensures n in Served(Ran(EMPTY, held)) ==>
      Served(Ran(EMPTY, held))[n] == if n in Folded(log) then Folded(log)[n] else Folded(earlier)[n]
    ensures n in Folded(log) ==> n in Served(Ran(EMPTY, held))
  {
    assert AllSpeak(earlier + log, names, tags);
    StoreRefinesMap(held, names, tags);
    FoldedOntoSum(map[], earlier, log);
    FoldForgetsStart(Folded(earlier), log, n);
  }

  lemma PrefixMentioned(log: seq<Command>, k: nat)
    requires k <= |log|
    ensures forall c :: c in log[..k] ==> Mentions(log, c.name)
  {
    forall c | c in log[..k] ensures Mentions(log, c.name) {
      var i :| 0 <= i < k && log[i] == c;
    }
  }

  /** In particular a daemon that held the result of any prefix of the log. */
  lemma PrefixConverges(
    held: seq<Act>, once: seq<Act>, log: seq<Command>, k: nat, names: set<string>, tags: string -> string)
    requires Apart(names, tags) && AllSpeak(log, names, tags) && k <= |log|
    requires Commands(held) == log[..k] + log && Commands(once) == log
    ensures Served(Ran(EMPTY, held)) == Served(Ran(EMPTY, once)) == Folded(log)
  {
    PrefixMentioned(log, k);
    assert forall c :: c in log[..k] ==> c in log;
    ReconnectConverges(held, once, log[..k], log, names, tags);
  }

  /** Whatever canonical names are served, withdrawn and seen, every reachable store is well formed. */
  lemma {:induction false} ReachableWellFormed(acts: seq<Act>)
    requires forall c :: c in Commands(acts) ==> Canonical(c.name)
    ensures WellFormed(Ran(EMPTY, acts))
  {
    if acts == [] {
      EmptyIsSound();
    } else {
      var before, last := acts[..|acts| - 1], acts[|acts| - 1];
      ReachableWellFormed(before);
      match last
      case Sight(path, identity) => ObserveKeeps(Ran(EMPTY, before), path, identity);
      case Heard(c) =>
        assert c in Commands(acts);
        match c
        case Serve(name, inner, mode) => ServeKeeps(Ran(EMPTY, before), name, inner, mode);
        case Withdraw(name) => RemoveCanonical(Ran(EMPTY, before), name);
    }
  }
}
