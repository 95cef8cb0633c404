/** Reconnecting a data daemon when names lie inside one another: exactly which name spaces still converge. */
module Nested {
  import opened Text
  import opened Paths
  import opened Mount
  import opened Hub
  import opened Identity
  import opened Replay

  /** No name is inside or around two others. */
  ghost predicate Paired(names: set<string>) {
    forall n, m1, m2 :: m1 in names && m2 in names && n in names && Related(m1, n) && Related(m2, n) ==> m1 == m2
  }

  /** A daemon that holds the result of any prefix of any log, and is told all of it, serves what a fresh one does. */
  ghost predicate Converges(names: set<string>, tags: string -> string) {
    forall held: seq<Act>, once: seq<Act>, log: seq<Command>, k: nat ::
      k <= |log| && AllSpeak(log, names, tags) && Commands(held) == log[..k] + log && Commands(once) == log ==>
        Served(Ran(EMPTY, held)) == Served(Ran(EMPTY, once))
  }

  lemma {:induction false} MindedSum(view: map<string, Entry>, a: seq<Command>, b: seq<Command>)
    ensures MindedAll(view, a + b) == MindedAll(MindedAll(view, a), b)
  {
    if b == [] {
      assert a + b == a;
    } else {
      MindedSum(view, a, b[..|b| - 1]);
      assert (a + b)[..|a + b| - 1] == a + b[..|b| - 1];
    }
  }

  // ── two runs of one log, side by side ──────────────────────────

  predicate Alike(x: map<string, Entry>, y: map<string, Entry>, m: string) {
    (m in x <==> m in y) && (m in x ==> x[m] == y[m])
  }

  /** Both serve the same of `n` and of everything inside or around it. */
  ghost predicate Together(x: map<string, Entry>, y: map<string, Entry>, n: string, names: set<string>) {
    Alike(x, y, n) && forall m :: m in names && Related(m, n) ==> Alike(x, y, m)
  }

  /** The one has not `n`, the other nothing that contests it. */
  ghost predicate Crossed(x: map<string, Entry>, y: map<string, Entry>, n: string, names: set<string>) {
    n !in x && forall m :: m in names && Related(m, n) ==> m !in y
  }

  lemma ContestedByOne(view: map<string, Entry>, m: string, n: string, names: set<string>)
    requires Paired(names) && view.Keys <= names && m in names && n in names && Related(n, m)
    ensures Contested(view, m) <==> n in view
  {
  }

  lemma AlikeStays(x: map<string, Entry>, y: map<string, Entry>, c: Command, m: string)
    requires Alike(x, y, m) && (c.name == m ==> (Contested(x, m) <==> Contested(y, m)))
    ensures Alike(Minded(x, c), Minded(y, c), m)
  {
  }

  lemma TogetherContested(x: map<string, Entry>, y: map<string, Entry>, m: string, n: string, names: set<string>)
    requires Paired(names) && x.Keys <= names && y.Keys <= names && m in names && n in names
    requires Together(x, y, n, names) && (m == n || Related(m, n))
    ensures Contested(x, m) <==> Contested(y, m)
  {
    if m != n {
      assert Related(n, m);
      ContestedByOne(x, m, n, names);
      ContestedByOne(y, m, n, names);
    }
  }

  lemma TogetherStays(x: map<string, Entry>, y: map<string, Entry>, c: Command, n: string, names: set<string>)
    requires Paired(names) && x.Keys <= names && y.Keys <= names && c.name in names && n in names
    requires Together(x, y, n, names)
    ensures Together(Minded(x, c), Minded(y, c), n, names)
  {
    forall m | m in names && (m == n || Related(m, n)) ensures Alike(Minded(x, c), Minded(y, c), m) {
      TogetherContested(x, y, m, n, names);
      AlikeStays(x, y, c, m);
    }
  }

  lemma CrossedStays(x: map<string, Entry>, y: map<string, Entry>, c: Command, n: string, names: set<string>)
    requires Paired(names) && x.Keys <= names && y.Keys <= names && c.name in names && n in names
    requires Crossed(x, y, n, names)
    ensures Crossed(Minded(x, c), Minded(y, c), n, names) || Together(Minded(x, c), Minded(y, c), n, names)
  {
    if Related(c.name, n) {
      assert Related(n, c.name);
      ContestedByOne(x, c.name, n, names);
      ContestedByOne(y, c.name, n, names);
    } else if c.name == n {
      assert !Contested(y, n);
    }
  }

  ghost predicate Names(log: seq<Command>, names: set<string>) {
    forall c :: c in log ==> c.name in names
  }

  /** Once together, together from then on. */
  lemma {:induction false} TogetherFrom(
    x: map<string, Entry>, y: map<string, Entry>, log: seq<Command>, n: string, names: set<string>)
    requires Paired(names) && x.Keys <= names && y.Keys <= names && Names(log, names) && n in names
    requires Together(x, y, n, names)
    ensures Together(MindedAll(x, log), MindedAll(y, log), n, names)
  {
    if log != [] {
      var front := log[..|log| - 1];
      assert log[|log| - 1] in log;
      TogetherFrom(x, y, front, n, names);
      MindedWithin(x, front, names);
      MindedWithin(y, front, names);
      TogetherStays(MindedAll(x, front), MindedAll(y, front), log[|log| - 1], n, names);
    }
  }

  lemma {:induction false} CrossedFrom(
    x: map<string, Entry>, y: map<string, Entry>, log: seq<Command>, n: string, names: set<string>)
    requires Paired(names) && x.Keys <= names && y.Keys <= names && Names(log, names) && n in names
    requires Crossed(x, y, n, names)
    ensures
      || Crossed(MindedAll(x, log), MindedAll(y, log), n, names)
      || Together(MindedAll(x, log), MindedAll(y, log), n, names)
  {
    if log != [] {
      var front, last := log[..|log| - 1], log[|log| - 1];
      assert last in log;
      CrossedFrom(x, y, front, n, names);
      MindedWithin(x, front, names);
      MindedWithin(y, front, names);
      if Together(MindedAll(x, front), MindedAll(y, front), n, names) {
        TogetherStays(MindedAll(x, front), MindedAll(y, front), last, n, names);
      } else {
        CrossedStays(MindedAll(x, front), MindedAll(y, front), last, n, names);
      }
    }
  }

  /** What is served contests nothing else that is. */
  ghost predicate Peaceful(view: map<string, Entry>) {
    forall m, n :: m in view && n in view ==> !Related(m, n)
  }

  lemma {:induction false} MindedIsPeaceful(log: seq<Command>)
    ensures Peaceful(MindedAll(map[], log))
  {
    if log != [] {
      MindedIsPeaceful(log[..|log| - 1]);
    }
  }

  /** By the time the fresh run has come to where the other began, they are together on what that held. */
  lemma HeldTogether(log: seq<Command>, k: nat, n: string, names: set<string>)
    requires Paired(names) && Names(log, names) && k <= |log| && n in names && n in MindedAll(map[], log[..k])
    ensures Together(MindedAll(map[], log), MindedAll(MindedAll(map[], log[..k]), log), n, names)
  {
    var prefix, rest := log[..k], log[k..];
    var held := MindedAll(map[], prefix);
    assert log == prefix + rest;
    MindedWithin(map[], prefix, names);
    MindedWithin(held, prefix, names);
    MindedIsPeaceful(prefix);
    CrossedFrom(map[], held, prefix, n, names);
    TogetherFrom(held, MindedAll(held, prefix), rest, n, names);
    MindedSum(map[], prefix, rest);
    MindedSum(held, prefix, rest);
  }

  lemma TogetherOn(log: seq<Command>, k: nat, n: string, names: set<string>)
    requires Paired(names) && Names(log, names) && k <= |log| && n in names
    ensures Alike(MindedAll(map[], log), MindedAll(MindedAll(map[], log[..k]), log), n)
  {
    var held := MindedAll(map[], log[..k]);
    if n in held {
      HeldTogether(log, k, n, names);
    } else if m :| m in names && Related(m, n) && m in held {
      HeldTogether(log, k, m, names);
      assert Related(n, m);
    } else {
      MindedWithin(map[], log[..k], names);
      TogetherFrom(map[], held, log, n, names);
    }
  }

  /** With every name inside or around at most one other, replaying converges. */
  lemma PairedConverges(names: set<string>, tags: string -> string, log: seq<Command>, k: nat)
    requires Paired(names) && k <= |log| && AllSpeak(log, names, tags)
    ensures MindedAll(map[], log[..k] + log) == MindedAll(map[], log)
  {
    var x, y := MindedAll(map[], log), MindedAll(MindedAll(map[], log[..k]), log);
    MindedSum(map[], log[..k], log);
    MindedWithin(map[], log, names);
    MindedWithin(map[], log[..k], names);
    MindedWithin(MindedAll(map[], log[..k]), log, names);
    forall n | n in names ensures Alike(x, y, n) {
      TogetherOn(log, k, n, names);
    }
    assert forall n :: n in x <==> n in y by {
      assert forall n :: n in x || n in y ==> n in names && Alike(x, y, n);
    }
    assert forall n :: n in x ==> x[n] == y[n] by {
      assert forall n :: n in x ==> n in names && Alike(x, y, n);
    }
  }

  // ── three names are one too many ───────────────────────────────

  function Put(n: string, tags: string -> string): Command {
    Command.Serve(n, tags(n), 0)
  }

  /** `b` is refused while `a` is there, and `c` comes when `a` has gone. */
  function ForkLog(a: string, b: string, c: string, tags: string -> string): seq<Command> {
    [Put(a, tags), Put(b, tags), Withdraw(a), Put(c, tags)]
  }

  /** `c` is refused while `a` is there, and `b` comes when `a` has gone. */
  function ChainLog(a: string, b: string, c: string, tags: string -> string): seq<Command> {
    [Put(a, tags), Withdraw(b), Put(c, tags), Withdraw(a), Put(b, tags)]
  }

  lemma {:induction false} MindedFirst(view: map<string, Entry>, c: Command, rest: seq<Command>)
    ensures MindedAll(view, [c] + rest) == MindedAll(Minded(view, c), rest)
  {
    assert [c][..0] == [];
    MindedSum(view, [c], rest);
  }

  lemma FourMinded(view: map<string, Entry>, c1: Command, c2: Command, c3: Command, c4: Command)
    ensures MindedAll(view, [c1, c2, c3, c4]) == Minded(Minded(Minded(Minded(view, c1), c2), c3), c4)
  {
    var log := [c1, c2, c3, c4];
    assert log == [c1] + [c2, c3, c4] && [c2, c3, c4] == [c2] + [c3, c4] && [c3, c4] == [c3] + [c4];
    MindedFirst(view, c1, [c2, c3, c4]);
    MindedFirst(Minded(view, c1), c2, [c3, c4]);
    MindedFirst(Minded(Minded(view, c1), c2), c3, [c4]);
    assert [c4] == [c4] + [];
    MindedFirst(Minded(Minded(Minded(view, c1), c2), c3), c4, []);
  }

  lemma ContestedInOne(m: string, e: Entry, n: string)
    ensures Contested(map[m := e], n) <==> Related(m, n)
    ensures !Contested(map[], n)
  {
    assert m in map[m := e];
  }

  /** Two unrelated names inside a third: a fresh daemon ends with one of them, the other daemon with both. */
  lemma ForkDiverges(a: string, b: string, c: string, tags: string -> string)
    requires Related(a, b) && Related(a, c) && !Related(b, c) && b != c
    ensures
      var log := ForkLog(a, b, c, tags);
      b in MindedAll(MindedAll(map[], log), log) && b !in MindedAll(map[], log)
  {
    var log := ForkLog(a, b, c, tags);
    FourMinded(map[], log[0], log[1], log[2], log[3]);
    ContestedInOne(a, Entry(tags(a), 0), b);
    ContestedInOne(c, Entry(tags(c), 0), c);
    var one := map[a := Entry(tags(a), 0)];
    assert Minded(map[], log[0]) == one && Minded(one, log[1]) == one && Minded(one, log[2]) == map[];
    ContestedInOne(c, Entry(tags(c), 0), a);
    ContestedInOne(c, Entry(tags(c), 0), b);
    var held := map[c := Entry(tags(c), 0)];
    assert MindedAll(map[], log) == held;
    FourMinded(held, log[0], log[1], log[2], log[3]);
    assert Minded(held, log[0]) == held && b in Minded(held, log[1]);
  }

  /** A chain of three: a fresh daemon ends with the middle name, the other daemon with the last. */
  lemma ChainDiverges(a: string, b: string, c: string, tags: string -> string)
    requires Related(a, b) && Related(a, c) && Related(b, c)
    ensures
      var log := ChainLog(a, b, c, tags);
      b in MindedAll(map[], log) && b !in MindedAll(MindedAll(map[], log), log)
  {
    var log := ChainLog(a, b, c, tags);
    var put := [log[0], log[1], log[2], log[3]];
    assert log == put + [log[4]];
    MindedSum(map[], put, [log[4]]);
    FourMinded(map[], log[0], log[1], log[2], log[3]);
    var one := map[a := Entry(tags(a), 0)];
    ContestedInOne(a, Entry(tags(a), 0), c);
    assert Minded(map[], log[0]) == one && Minded(one, log[1]) == one && Minded(one, log[2]) == one;
    assert Minded(one, log[3]) == map[];
    LastMinded(map[], log[4]);
    var held := map[b := Entry(tags(b), 0)];
    assert MindedAll(map[], log) == held;
    MindedSum(held, put, [log[4]]);
    FourMinded(held, log[0], log[1], log[2], log[3]);
    ContestedInOne(b, Entry(tags(b), 0), a);
    var other := map[c := Entry(tags(c), 0)];
    assert Minded(held, log[0]) == held && Minded(held, log[1]) == map[];
    ContestedInOne(c, Entry(tags(c), 0), b);
    assert Minded(map[], log[2]) == other && Minded(other, log[3]) == other;
    LastMinded(other, log[4]);
  }

  lemma LastMinded(view: map<string, Entry>, c: Command)
    ensures MindedAll(view, [c]) == Minded(view, c)
  {
    assert [c] == [c] + [];
    MindedFirst(view, c, []);
  }

  // ── exactly ────────────────────────────────────────────────────

  function Hearing(log: seq<Command>): seq<Act> {
    seq(|log|, i requires 0 <= i < |log| => Heard(log[i]))
  }

  lemma {:induction false} CommandsHeard(log: seq<Command>)
    ensures Commands(Hearing(log)) == log
  {
    if log != [] {
      assert Hearing(log)[..|log| - 1] == Hearing(log[..|log| - 1]);
      CommandsHeard(log[..|log| - 1]);
    }
  }

  /** A log that comes out otherwise the second time is a failure to converge. */
  lemma TwiceTold(names: set<string>, tags: string -> string, log: seq<Command>)
    requires NameSpace(names, tags) && AllSpeak(log, names, tags)
    requires MindedAll(MindedAll(map[], log), log) != MindedAll(map[], log)
    ensures !Converges(names, tags)
  {
    var held, once := Hearing(log + log), Hearing(log);
    CommandsHeard(log + log);
    CommandsHeard(log);
    assert log[..|log|] == log;
    assert AllSpeak(log + log, names, tags);
    StoreMindsMap(held, names, tags);
    StoreMindsMap(once, names, tags);
    MindedSum(map[], log, log);
    assert Commands(held) == log[..|log|] + log;
  }

  lemma TheySpeak(a: string, b: string, c: string, names: set<string>, tags: string -> string)
    requires a in names && b in names && c in names
    ensures AllSpeak(ForkLog(a, b, c, tags), names, tags) && AllSpeak(ChainLog(a, b, c, tags), names, tags)
  {
  }

  /** Three names of which one is inside or around both others. */
  lemma ThreeNamesDiverge(n: string, m1: string, m2: string, names: set<string>, tags: string -> string)
    requires NameSpace(names, tags) && n in names && m1 in names && m2 in names && m1 != m2
    requires Related(n, m1) && Related(n, m2)
    ensures !Converges(names, tags)
  {
    TheySpeak(n, m1, m2, names, tags);
    if Related(m1, m2) {
      ChainDiverges(n, m1, m2, tags);
      TwiceTold(names, tags, ChainLog(n, m1, m2, tags));
    } else {
      ForkDiverges(n, m1, m2, tags);
      TwiceTold(names, tags, ForkLog(n, m1, m2, tags));
    }
  }

  /**
   * In a canonical name space every reconnect converges if and only if no name lies inside or around two others:
   * two names, one inside the other, are harmless, and three are not.
   */
  lemma ConvergesExactly(names: set<string>, tags: string -> string)
    requires NameSpace(names, tags)
    ensures Converges(names, tags) <==> Paired(names)
  {
    if Paired(names) {
      forall held: seq<Act>, once: seq<Act>, log: seq<Command>, k: nat |
        k <= |log| && AllSpeak(log, names, tags) && Commands(held) == log[..k] + log && Commands(once) == log
        ensures Served(Ran(EMPTY, held)) == Served(Ran(EMPTY, once))
      {
        assert AllSpeak(log[..k] + log, names, tags);
        StoreMindsMap(held, names, tags);
        StoreMindsMap(once, names, tags);
        PairedConverges(names, tags, log, k);
      }
    } else {
      var n, m1, m2 :|
        m1 in names && m2 in names && n in names && Related(m1, n) && Related(m2, n) && m1 != m2;
      assert Related(n, m1) && Related(n, m2);
      ThreeNamesDiverge(n, m1, m2, names, tags);
    }
  }
}
