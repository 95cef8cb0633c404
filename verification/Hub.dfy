/** The control channel: a log of what to serve, replayed whole to every data daemon that connects. */
module Hub {
  import opened Text

  datatype Command = Serve(name: string, inner: string, mode: nat) | Withdraw(name: string)

  datatype Entry = Entry(inner: string, mode: nat)

  /** What a log amounts to: the last word on each name. */
  function Folded(log: seq<Command>): map<string, Entry> {
    FoldedOnto(map[], log)
  }

  /** The last word on a name replaces whatever was said before. */
  function Told(view: map<string, Entry>, c: Command): map<string, Entry> {
    match c
    case Serve(name, inner, mode) => view[name := Entry(inner, mode)]
    case Withdraw(name) => view - {name}
  }

  function FoldedOnto(start: map<string, Entry>, log: seq<Command>): map<string, Entry> {
    if log == [] then start else Told(FoldedOnto(start, log[..|log| - 1]), log[|log| - 1])
  }

  lemma FoldedAppend(start: map<string, Entry>, log: seq<Command>, c: Command)
    ensures FoldedOnto(start, log + [c]) == Told(FoldedOnto(start, log), c)
  {
    assert (log + [c])[..|log|] == log;
  }

  predicate Mentions(log: seq<Command>, name: string) {
    exists i :: 0 <= i < |log| && log[i].name == name
  }

  /** A fold depends on where it starts only for names the log never mentions. */
  lemma {:induction false} FoldForgetsStart(start: map<string, Entry>, log: seq<Command>, name: string)
    ensures Mentions(log, name) ==>
      (name in FoldedOnto(start, log) <==> name in Folded(log)) &&
      (name in Folded(log) ==> FoldedOnto(start, log)[name] == Folded(log)[name])
    ensures !Mentions(log, name) ==>
      name !in Folded(log) &&
      (name in FoldedOnto(start, log) <==> name in start) &&
      (name in start ==> FoldedOnto(start, log)[name] == start[name])
  {
    if log != [] {
      var front, last := log[..|log| - 1], log[|log| - 1];
      FoldForgetsStart(start, front, name);
      if Mentions(front, name) {
        var i :| 0 <= i < |front| && front[i].name == name;
        assert log[i].name == name;
      }
      if last.name == name {
        assert log[|log| - 1].name == name;
      } else if Mentions(log, name) {
        var i :| 0 <= i < |log| && log[i].name == name;
        assert front[i].name == name;
      }
    }
  }

  // ── commands that overlap ──────────────────────────────────────

  /** The last command about a name. */
  function LastWord(log: seq<Command>, name: string): Option<Command> {
    if log == [] then None
    else if log[|log| - 1].name == name then Some(log[|log| - 1])
    else LastWord(log[..|log| - 1], name)
  }

  /** What is left of a name after a command about it. */
  function Meaning(word: Option<Command>): Option<Entry> {
    if word.Some? && word.value.Serve? then Some(Entry(word.value.inner, word.value.mode)) else None
  }

  function Found(view: map<string, Entry>, name: string): Option<Entry> {
    if name in view then Some(view[name]) else None
  }

  lemma {:induction false} FoldedByLastWords(log: seq<Command>, name: string)
    ensures Found(Folded(log), name) == Meaning(LastWord(log, name))
  {
    if log != [] {
      FoldedByLastWords(log[..|log| - 1], name);
    }
  }

  lemma SameView(a: map<string, Entry>, b: map<string, Entry>)
    requires forall n: string :: Found(a, n) == Found(b, n)
    ensures a == b
  {
    forall n: string ensures (n in a <==> n in b) && (n in a ==> a[n] == b[n]) {
      assert Found(a, n) == Found(b, n);
    }
  }

  ghost predicate SameLastWords(a: seq<Command>, b: seq<Command>) {
    forall n: string :: Meaning(LastWord(a, n)) == Meaning(LastWord(b, n))
  }

  /** Two logs come to the same exactly when their last words on every name do. */
  lemma LastWordsDecide(a: seq<Command>, b: seq<Command>)
    ensures Folded(a) == Folded(b) <==> SameLastWords(a, b)
  {
    forall n: string ensures Found(Folded(a), n) == Found(Folded(b), n) <==>
      Meaning(LastWord(a, n)) == Meaning(LastWord(b, n))
    {
      FoldedByLastWords(a, n);
      FoldedByLastWords(b, n);
    }
    if SameLastWords(a, b) {
      forall n: string ensures Found(Folded(a), n) == Found(Folded(b), n) {
        assert Meaning(LastWord(a, n)) == Meaning(LastWord(b, n));
      }
      SameView(Folded(a), Folded(b));
    }
  }

  lemma AfterTwo(log: seq<Command>, x: Command, y: Command)
    ensures forall n: string ::
      Found(Folded(log + [x] + [y]), n) ==
      (if y.name == n then Meaning(Some(y)) else if x.name == n then Meaning(Some(x)) else Found(Folded(log), n))
  {
    FoldedAppend(map[], log, x);
    FoldedAppend(map[], log + [x], y);
  }

  /** Two commands may be announced in either order exactly when they are about different names or say the same. */
  lemma OverlapHarmless(log: seq<Command>, x: Command, y: Command)
    ensures Folded(log + [x] + [y]) == Folded(log + [y] + [x]) <==>
      x.name != y.name || Meaning(Some(x)) == Meaning(Some(y))
  {
    var xy, yx := log + [x] + [y], log + [y] + [x];
    AfterTwo(log, x, y);
    AfterTwo(log, y, x);
    if x.name == y.name {
      assert Found(Folded(xy), x.name) == Meaning(Some(y)) && Found(Folded(yx), x.name) == Meaning(Some(x));
    }
    if x.name != y.name || Meaning(Some(x)) == Meaning(Some(y)) {
      SameView(Folded(xy), Folded(yx));
    }
  }

  class OracleHub {
    var snapshot: seq<Command>
    var controls: map<nat, seq<Command>>  // per live connection, the commands written to it

    /** Every live connection has been told the whole log. */
    ghost predicate Caught()
      reads this
    {
      forall c :: c in controls ==> controls[c] == snapshot
    }

    constructor ()
      ensures snapshot == [] && controls == map[] && Caught()
    {
      snapshot, controls := [], map[];
    }

    /** Append to the log and write to every connection; those whose write fails (`broken`) are dropped. */
    method Broadcast(c: Command, broken: set<nat>)
      modifies this
      ensures snapshot == old(snapshot) + [c]
      ensures controls.Keys == old(controls.Keys) - broken
      ensures forall k :: k in controls ==> controls[k] == old(controls)[k] + [c]
      ensures old(Caught()) ==> Caught()
    {
      snapshot := snapshot + [c];
      controls := map k | k in controls && k !in broken :: controls[k] + [c];
    }

    /** A connection says hello: it is replayed the whole log, then registered. */
    method Attach(id: nat)
      modifies this`controls
      ensures controls == old(controls)[id := snapshot]
      ensures old(Caught()) ==> Caught()
    {
      var written: seq<Command> := [];
      for i := 0 to |snapshot|
        invariant written == snapshot[..i]
      {
        written := written + [snapshot[i]];
      }
      assert snapshot[..|snapshot|] == snapshot;
      controls := controls[id := written];
    }
  }
}
