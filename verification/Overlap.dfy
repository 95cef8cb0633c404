/**
 * Commands that overlap. A handler changes the policy state first and tells the hub afterwards, so another handler
 * may come in between. Here any number of them do, in any order.
 */
module Overlap {
  import opened Text
  import opened Policy
  import opened Hub
  import opened Handler

  /** `owed` has been done and not yet announced. `done` is history: all announcements, in the order of the changes. */
  datatype Busy = Busy(state: State, log: seq<Command>, owed: seq<Command>, done: seq<Command>)

  /** A handler does what its request says, or makes the announcement it owes. */
  datatype Act = Change(r: Request, t0: nat, t1: nat, t2: nat) | Announce(i: nat)

  predicate Enabled(b: Busy, a: Act) {
    a.Announce? ==> a.i < |b.owed|
  }

  function Acted(b: Busy, a: Act, anonymize: Anonymizer): Busy
    requires Enabled(b, a)
  {
    match a
    case Change(r, t0, t1, t2) =>
      var said := Said(b.state, r, anonymize);
      Busy(Handled(b.state, r, t0, t1, t2), b.log, b.owed + said, b.done + said)
    case Announce(i) => b.(log := b.log + [b.owed[i]], owed := b.owed[..i] + b.owed[i + 1..])
  }

  predicate Legal(b: Busy, acts: seq<Act>, anonymize: Anonymizer)
    decreases |acts|
  {
    acts != [] ==> Enabled(b, acts[0]) && Legal(Acted(b, acts[0], anonymize), acts[1..], anonymize)
  }

  function Result(b: Busy, acts: seq<Act>, anonymize: Anonymizer): Busy
    requires Legal(b, acts, anonymize)
    decreases |acts|
  {
    if acts == [] then b else Result(Acted(b, acts[0], anonymize), acts[1..], anonymize)
  }

  lemma ResultStep(b: Busy, a: Act, rest: seq<Act>, anonymize: Anonymizer)
    requires Enabled(b, a) && Legal(Acted(b, a, anonymize), rest, anonymize)
    ensures Legal(b, [a] + rest, anonymize)
    ensures Result(b, [a] + rest, anonymize) == Result(Acted(b, a, anonymize), rest, anonymize)
  {
    assert ([a] + rest)[1..] == rest;
  }

  /** Nothing is owed, and the log mirrors the state. */
  predicate Settled(b: Busy, anonymize: Anonymizer) {
    b.owed == [] && Mirrors(b.log, b.state, anonymize)
  }

  // ── any run ────────────────────────────────────────────────────

  lemma {:induction false} DoneMirrors(b: Busy, acts: seq<Act>, anonymize: Anonymizer)
    requires Mirrors(b.done, b.state, anonymize) && Legal(b, acts, anonymize)
    ensures Mirrors(Result(b, acts, anonymize).done, Result(b, acts, anonymize).state, anonymize)
    decreases |acts|
  {
    if acts != [] {
      if acts[0].Change? {
        CommandMirrored(b.done, b.state, acts[0].r, anonymize, acts[0].t0, acts[0].t1, acts[0].t2);
      }
      DoneMirrors(Acted(b, acts[0], anonymize), acts[1..], anonymize);
    }
  }

  /**
   * After any run the log mirrors the state exactly when its last word on every name means the same as the
   * announcement of the last change to it.
   */
  lemma RunMirrorsExactly(b: Busy, acts: seq<Act>, anonymize: Anonymizer)
    requires Mirrors(b.done, b.state, anonymize) && Legal(b, acts, anonymize)
    ensures
      var v := Result(b, acts, anonymize);
      Mirrors(v.log, v.state, anonymize) <==> SameLastWords(v.log, v.done)
  {
    DoneMirrors(b, acts, anonymize);
    LastWordsDecide(Result(b, acts, anonymize).log, Result(b, acts, anonymize).done);
  }

  // ── clashes ────────────────────────────────────────────────────

  predicate Disagree(x: Command, y: Command) {
    x.name == y.name && Meaning(Some(x)) != Meaning(Some(y))
  }

  /** The request would announce otherwise what somebody still has to announce about the same name. */
  predicate Clashes(b: Busy, r: Request, anonymize: Anonymizer) {
    exists i, j :: 0 <= i < |b.owed| && 0 <= j < |Said(b.state, r, anonymize)|
      && Disagree(b.owed[i], Said(b.state, r, anonymize)[j])
  }

  predicate OwedOn(b: Busy, n: string) {
    exists i :: 0 <= i < |b.owed| && b.owed[i].name == n
  }

  /** On `n` the log says what is served, or will: whatever is owed about it says so. */
  predicate PromisedOn(b: Busy, n: string, anonymize: Anonymizer) {
    && (forall i :: 0 <= i < |b.owed| && b.owed[i].name == n ==>
          Meaning(Some(b.owed[i])) == Found(Serving(b.state, anonymize), n))
    && (!OwedOn(b, n) ==> Found(Folded(b.log), n) == Found(Serving(b.state, anonymize), n))
  }

  ghost predicate Promised(b: Busy, anonymize: Anonymizer) {
    forall n: string :: PromisedOn(b, n, anonymize)
  }

  lemma PromisedAtRest(b: Busy, anonymize: Anonymizer)
    requires b.owed == []
    ensures Promised(b, anonymize) <==> Mirrors(b.log, b.state, anonymize)
  {
    assert forall n :: !OwedOn(b, n);
    if Promised(b, anonymize) {
      forall n: string ensures Found(Folded(b.log), n) == Found(Serving(b.state, anonymize), n) {
        assert PromisedOn(b, n, anonymize);
      }
      SameView(Folded(b.log), Serving(b.state, anonymize));
    }
  }

  /** What is owed about the name of a request that does not clash agrees with what it says. */
  lemma OwedAgrees(b: Busy, r: Request, anonymize: Anonymizer, i: nat)
    requires !Clashes(b, r, anonymize) && i < |b.owed| && Said(b.state, r, anonymize) != []
    requires b.owed[i].name == Said(b.state, r, anonymize)[0].name
    ensures Meaning(Some(b.owed[i])) == Meaning(Some(Said(b.state, r, anonymize)[0]))
  {
    assert !Disagree(b.owed[i], Said(b.state, r, anonymize)[0]);
  }

  /** A request that says nothing about a name leaves what is owed about it, and what is served of it. */
  lemma ElsewherePromised(b: Busy, a: Act, anonymize: Anonymizer, n: string)
    requires a.Change? && PromisedOn(b, n, anonymize)
    requires Said(b.state, a.r, anonymize) != [] ==> Said(b.state, a.r, anonymize)[0].name != n
    ensures PromisedOn(Acted(b, a, anonymize), n, anonymize)
  {
    HandledServes(b.state, a.r, anonymize, a.t0, a.t1, a.t2);
    if OwedOn(b, n) {
      var i :| 0 <= i < |b.owed| && b.owed[i].name == n;
      assert Acted(b, a, anonymize).owed[i] == b.owed[i];
    }
  }

  lemma ChangePromised(b: Busy, a: Act, anonymize: Anonymizer, n: string)
    requires a.Change? && PromisedOn(b, n, anonymize) && !Clashes(b, a.r, anonymize)
    ensures PromisedOn(Acted(b, a, anonymize), n, anonymize)
  {
    var v, said := Acted(b, a, anonymize), Said(b.state, a.r, anonymize);
    HandledServes(b.state, a.r, anonymize, a.t0, a.t1, a.t2);
    if said != [] && said[0].name == n {
      assert v.owed[|b.owed|] == said[0];
      forall i | 0 <= i < |b.owed| && b.owed[i].name == n ensures Meaning(Some(b.owed[i])) == Meaning(Some(said[0])) {
        OwedAgrees(b, a.r, anonymize, i);
      }
    } else {
      ElsewherePromised(b, a, anonymize, n);
    }
  }

  lemma AnnouncePromised(b: Busy, i: nat, anonymize: Anonymizer, n: string)
    requires i < |b.owed| && PromisedOn(b, n, anonymize)
    ensures PromisedOn(Acted(b, Announce(i), anonymize), n, anonymize)
  {
    var v := Acted(b, Announce(i), anonymize);
    FoldedAppend(map[], b.log, b.owed[i]);
    forall k | 0 <= k < |v.owed| ensures v.owed[k] == b.owed[if k < i then k else k + 1] {}
    if OwedOn(b, n) && b.owed[i].name != n {
      var k :| 0 <= k < |b.owed| && b.owed[k].name == n;
      assert v.owed[if k < i then k else k - 1] == b.owed[k];
    }
  }

  /** An act that does not clash keeps every promise. */
  lemma ActPromised(b: Busy, a: Act, anonymize: Anonymizer)
    requires Promised(b, anonymize) && Enabled(b, a) && (a.Change? ==> !Clashes(b, a.r, anonymize))
    ensures Promised(Acted(b, a, anonymize), anonymize)
  {
    forall n: string ensures PromisedOn(Acted(b, a, anonymize), n, anonymize) {
      assert PromisedOn(b, n, anonymize);
      if a.Change? {
        ChangePromised(b, a, anonymize, n);
      } else {
        AnnouncePromised(b, a.i, anonymize, n);
      }
    }
  }

  /** No request on the way meets an announcement it would contradict. */
  predicate Calm(b: Busy, acts: seq<Act>, anonymize: Anonymizer)
    requires Legal(b, acts, anonymize)
    decreases |acts|
  {
    acts != [] ==>
      && (acts[0].Change? ==> !Clashes(b, acts[0].r, anonymize))
      && Calm(Acted(b, acts[0], anonymize), acts[1..], anonymize)
  }

  lemma {:induction false} CalmPromised(b: Busy, acts: seq<Act>, anonymize: Anonymizer)
    requires Promised(b, anonymize) && Legal(b, acts, anonymize) && Calm(b, acts, anonymize)
    ensures Promised(Result(b, acts, anonymize), anonymize)
    decreases |acts|
  {
    if acts != [] {
      ActPromised(b, acts[0], anonymize);
      CalmPromised(Acted(b, acts[0], anonymize), acts[1..], anonymize);
    }
  }

  /** However many handlers overlap, while no request clashes the log mirrors the state whenever nothing is owed. */
  lemma CalmRunsMirror(b: Busy, acts: seq<Act>, anonymize: Anonymizer)
    requires Settled(b, anonymize) && Legal(b, acts, anonymize) && Calm(b, acts, anonymize)
    ensures
      var v := Result(b, acts, anonymize);
      v.owed == [] ==> Mirrors(v.log, v.state, anonymize)
  {
    PromisedAtRest(b, anonymize);
    CalmPromised(b, acts, anonymize);
    if Result(b, acts, anonymize).owed == [] {
      PromisedAtRest(Result(b, acts, anonymize), anonymize);
    }
  }

  // ── what a clash can do ────────────────────────────────────────

  /** Everything owed is announced, nothing else happens. */
  predicate Drains(b: Busy, acts: seq<Act>, anonymize: Anonymizer) {
    (forall a :: a in acts ==> a.Announce?) && Legal(b, acts, anonymize) && Result(b, acts, anonymize).owed == []
  }

  lemma DrainFirst(b: Busy, i: nat, rest: seq<Act>, anonymize: Anonymizer)
    requires i < |b.owed| && Drains(Acted(b, Announce(i), anonymize), rest, anonymize)
    ensures Drains(b, [Announce(i)] + rest, anonymize)
    ensures Result(b, [Announce(i)] + rest, anonymize) == Result(Acted(b, Announce(i), anonymize), rest, anonymize)
  {
    ResultStep(b, Announce(i), rest, anonymize);
  }

  /** Whatever is owed, any one of the announcements may come last. */
  lemma {:induction false} AnyMayComeLast(b: Busy, i: nat, anonymize: Anonymizer) returns (acts: seq<Act>)
    requires i < |b.owed|
    ensures Drains(b, acts, anonymize)
    ensures
      var v := Result(b, acts, anonymize);
      v.state == b.state && v.log != [] && v.log[|v.log| - 1] == b.owed[i]
    decreases |b.owed|
  {
    if |b.owed| == 1 {
      DrainFirst(b, i, [], anonymize);
      acts := [Announce(i)] + [];
    } else {
      var first := if i == 0 then 1 else 0;
      var v := Acted(b, Announce(first), anonymize);
      var rest := AnyMayComeLast(v, if i == 0 then 0 else i - 1, anonymize);
      DrainFirst(b, first, rest, anonymize);
      acts := [Announce(first)] + rest;
    }
  }

  lemma ClashCanBreak(b: Busy, a: Act, anonymize: Anonymizer) returns (acts: seq<Act>)
    requires a.Change? && Clashes(b, a.r, anonymize)
    ensures Drains(Acted(b, a, anonymize), acts, anonymize)
    ensures
      var v := Result(Acted(b, a, anonymize), acts, anonymize);
      !Mirrors(v.log, v.state, anonymize)
  {
    var said := Said(b.state, a.r, anonymize);
    var i, j :| 0 <= i < |b.owed| && 0 <= j < |said| && Disagree(b.owed[i], said[j]);
    var changed := Acted(b, a, anonymize);
    HandledServes(b.state, a.r, anonymize, a.t0, a.t1, a.t2);
    acts := AnyMayComeLast(changed, i, anonymize);
    FoldedByLastWords(Result(changed, acts, anonymize).log, said[j].name);
  }

  lemma {:induction false} DrainsPromised(b: Busy, acts: seq<Act>, anonymize: Anonymizer)
    requires Promised(b, anonymize) && Drains(b, acts, anonymize)
    ensures Mirrors(Result(b, acts, anonymize).log, Result(b, acts, anonymize).state, anonymize)
    decreases |acts|
  {
    if acts == [] {
      PromisedAtRest(b, anonymize);
    } else {
      assert acts[0] in acts && forall a :: a in acts[1..] ==> a in acts;
      ActPromised(b, acts[0], anonymize);
      DrainsPromised(Acted(b, acts[0], anonymize), acts[1..], anonymize);
    }
  }

  /** In whatever order what is owed gets announced, the log ends up mirroring the state. */
  ghost predicate Safe(b: Busy, anonymize: Anonymizer) {
    forall acts :: Drains(b, acts, anonymize) ==>
      Mirrors(Result(b, acts, anonymize).log, Result(b, acts, anonymize).state, anonymize)
  }

  /**
   * At any point of a calm run a request leaves the mirror safe exactly when it does not clash; if it does, some
   * order of the announcements leaves the log otherwise than the state, with nothing owed.
   */
  lemma SafeUnlessClash(b: Busy, acts: seq<Act>, a: Act, anonymize: Anonymizer)
    requires Settled(b, anonymize) && Legal(b, acts, anonymize) && Calm(b, acts, anonymize) && a.Change?
    ensures
      var v := Result(b, acts, anonymize);
      Safe(Acted(v, a, anonymize), anonymize) <==> !Clashes(v, a.r, anonymize)
  {
    var v := Result(b, acts, anonymize);
    PromisedAtRest(b, anonymize);
    CalmPromised(b, acts, anonymize);
    if Clashes(v, a.r, anonymize) {
      var drain := ClashCanBreak(v, a, anonymize);
    } else {
      ActPromised(v, a, anonymize);
      forall drain | Drains(Acted(v, a, anonymize), drain, anonymize)
        ensures Mirrors(
          Result(Acted(v, a, anonymize), drain, anonymize).log, Result(Acted(v, a, anonymize), drain, anonymize).state,
          anonymize)
      {
        DrainsPromised(Acted(v, a, anonymize), drain, anonymize);
      }
    }
  }

  /** Two requests on a settled state that announce in the other order. */
  function Crossed(x: Act, y: Act): seq<Act> {
    [x, y, Announce(1), Announce(0)]
  }

  lemma CrossedResult(b: Busy, x: Act, y: Act, anonymize: Anonymizer)
    requires b.owed == [] && x.Change? && y.Change?
    requires |Said(b.state, x.r, anonymize)| == |Said(Acted(b, x, anonymize).state, y.r, anonymize)| == 1
    ensures Legal(b, Crossed(x, y), anonymize)
    ensures
      var v, second := Result(b, Crossed(x, y), anonymize), Acted(b, x, anonymize);
      && v.owed == [] && v.state == Acted(second, y, anonymize).state
      && v.log == b.log + [Said(second.state, y.r, anonymize)[0]] + [Said(b.state, x.r, anonymize)[0]]
  {
    var second := Acted(b, x, anonymize);
    var both := Acted(second, y, anonymize);
    AnnouncedBoth(both, anonymize);
    ResultStep(second, y, [Announce(1), Announce(0)], anonymize);
    ResultStep(b, x, [y, Announce(1), Announce(0)], anonymize);
    assert [y, Announce(1), Announce(0)] == [y] + [Announce(1), Announce(0)];
    assert Crossed(x, y) == [x] + [y, Announce(1), Announce(0)];
  }

  lemma AnnouncedBoth(b: Busy, anonymize: Anonymizer)
    requires |b.owed| == 2
    ensures Legal(b, [Announce(1), Announce(0)], anonymize)
    ensures Result(b, [Announce(1), Announce(0)], anonymize) ==
      b.(log := b.log + [b.owed[1]] + [b.owed[0]], owed := [])
  {
    var one := Acted(b, Announce(1), anonymize);
    assert one == b.(log := b.log + [b.owed[1]], owed := [b.owed[0]]);
    assert Acted(one, Announce(0), anonymize).owed == [];
    ResultStep(one, Announce(0), [], anonymize);
    ResultStep(b, Announce(1), [Announce(0)], anonymize);
    assert [Announce(0)] == [Announce(0)] + [];
    assert [Announce(1), Announce(0)] == [Announce(1)] + [Announce(0)];
  }

  /** The first of two commands leaves the log mirroring the second. */
  lemma InOrderMirrors(b: Busy, x: Act, y: Act, anonymize: Anonymizer)
    requires Mirrors(b.log, b.state, anonymize) && x.Change? && y.Change?
    requires |Said(b.state, x.r, anonymize)| == |Said(Acted(b, x, anonymize).state, y.r, anonymize)| == 1
    ensures
      var second := Acted(b, x, anonymize);
      var first, later := Said(b.state, x.r, anonymize)[0], Said(second.state, y.r, anonymize)[0];
      Mirrors(b.log + [first] + [later], Acted(second, y, anonymize).state, anonymize)
  {
    var second := Acted(b, x, anonymize);
    var first, later := Said(b.state, x.r, anonymize), Said(second.state, y.r, anonymize);
    CommandMirrored(b.log, b.state, x.r, anonymize, x.t0, x.t1, x.t2);
    CommandMirrored(b.log + first, second.state, y.r, anonymize, y.t0, y.t1, y.t2);
    assert first == [first[0]] && later == [later[0]];
  }

  /**
   * For instance: of two requests on a settled state the first announces last. The log then mirrors the state
   * exactly when they speak of different names or mean the same.
   */
  lemma CrossedMirrors(b: Busy, x: Act, y: Act, anonymize: Anonymizer)
    requires Settled(b, anonymize) && x.Change? && y.Change?
    requires |Said(b.state, x.r, anonymize)| == |Said(Acted(b, x, anonymize).state, y.r, anonymize)| == 1
    ensures
      var first, later := Said(b.state, x.r, anonymize)[0], Said(Acted(b, x, anonymize).state, y.r, anonymize)[0];
      && Legal(b, Crossed(x, y), anonymize) && Result(b, Crossed(x, y), anonymize).owed == []
      && (Settled(Result(b, Crossed(x, y), anonymize), anonymize) <==> !Disagree(first, later))
  {
    var first, later := Said(b.state, x.r, anonymize)[0], Said(Acted(b, x, anonymize).state, y.r, anonymize)[0];
    CrossedResult(b, x, y, anonymize);
    InOrderMirrors(b, x, y, anonymize);
    OverlapHarmless(b.log, first, later);
  }

  /** So adding a secret and removing it, announced in the other order, leaves data daemons serving it. */
  lemma AddRemoveCrossed(b: Busy, name: string, hash: string, mode: nat, file: HostFile, anonymize: Anonymizer)
    requires Settled(b, anonymize) && file.Regular?
    ensures
      var crossed := Crossed(Change(AddSecret(name, hash, mode, file), 0, 0, 0), Change(RemoveSecret(name), 0, 0, 0));
      && Legal(b, crossed, anonymize) && Result(b, crossed, anonymize).owed == []
      && !Mirrors(Result(b, crossed, anonymize).log, Result(b, crossed, anonymize).state, anonymize)
  {
    var add, remove := Change(AddSecret(name, hash, mode, file), 0, 0, 0), Change(RemoveSecret(name), 0, 0, 0);
    assert name in Acted(b, add, anonymize).state.secrets;
    CrossedMirrors(b, add, remove, anonymize);
  }
}
