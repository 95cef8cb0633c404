/** How a set of names is shortened for display: what is written, what is elided, and when two names look the same. */
module Collapse {
  import opened Text
  import opened Paths

  const ELLIPSIS := "..."

  // ── what the display should show ───────────────────────────────

  /** Two names agree on `p` and then go different ways. */
  ghost predicate Branches(names: set<Path>, p: Path) {
    exists a, b :: a in names && b in names && Continues(a, p) && Continues(b, p) && a[|p|] != b[|p|]
  }

  predicate Continues(a: Path, p: Path) {
    p <= a && |p| < |a|
  }

  /** A component is written when it is the last one or sets names apart. */
  ghost predicate Written(names: set<Path>, comps: Path, i: nat)
    requires i < |comps|
  {
    i == |comps| - 1 || Branches(names, comps[..i])
  }

  datatype Segment = Kept(component: string) | Gap(run: Path)

  ghost function Extended(segments: seq<Segment>, c: string, written: bool): seq<Segment> {
    if written then segments + [Kept(c)]
    else if segments != [] && segments[|segments| - 1].Gap? then
      segments[..|segments| - 1] + [Gap(segments[|segments| - 1].run + [c])]
    else segments + [Gap([c])]
  }

  /** The first `n` components, each maximal unwritten run as one gap. */
  ghost function Segments(names: set<Path>, comps: Path, n: nat): seq<Segment>
    requires n <= |comps|
  {
    if n == 0 then [] else Extended(Segments(names, comps, n - 1), comps[n - 1], Written(names, comps, n - 1))
  }

  function Texts(segments: seq<Segment>): seq<string> {
    if segments == [] then []
    else Texts(segments[..|segments| - 1]) + [Shown(segments[|segments| - 1])]
  }

  function Shown(segment: Segment): string {
    match segment
    case Kept(c) => c
    case Gap(_) => ELLIPSIS
  }

  ghost function Rendered(names: set<Path>, comps: Path): string {
    Join(Texts(Segments(names, comps, |comps|)), "/")
  }

  // ── the segments are exactly the maximal gaps ──────────────────

  function Flatten(segments: seq<Segment>): Path {
    if segments == [] then []
    else
      var last := segments[|segments| - 1];
      Flatten(segments[..|segments| - 1]) + if last.Kept? then [last.component] else last.run
  }

  /** One mark for each component: whether it is shown. */
  function Marks(segments: seq<Segment>): seq<bool> {
    if segments == [] then []
    else
      var last := segments[|segments| - 1];
      Marks(segments[..|segments| - 1]) + if last.Kept? then [true] else seq(|last.run|, _ => false)
  }

  /** No gap is empty and no two gaps touch. */
  predicate Maximal(segments: seq<Segment>) {
    && (forall k :: 0 <= k < |segments| && segments[k].Gap? ==> segments[k].run != [])
    && (forall k :: 0 < k < |segments| && segments[k - 1].Gap? ==> segments[k].Kept?)
  }

  lemma ExtendedMaximal(segments: seq<Segment>, c: string, written: bool)
    requires Maximal(segments)
    ensures Maximal(Extended(segments, c, written))
  {
  }

  lemma ExtendedFacts(segments: seq<Segment>, c: string, written: bool)
    ensures Flatten(Extended(segments, c, written)) == Flatten(segments) + [c]
    ensures Marks(Extended(segments, c, written)) == Marks(segments) + [written]
  {
    if !written && segments != [] && segments[|segments| - 1].Gap? {
      var front, run := segments[..|segments| - 1], segments[|segments| - 1].run;
      EndsWith(front, Gap(run + [c]));
      assert seq(|run + [c]|, _ => false) == seq(|run|, _ => false) + [false];
    } else {
      EndsWith(segments, if written then Kept(c) else Gap([c]));
      assert seq(|[c]|, _ => false) == [false];
    }
  }

  lemma EndsWith(front: seq<Segment>, last: Segment)
    ensures Flatten(front + [last]) == Flatten(front) + if last.Kept? then [last.component] else last.run
    ensures Marks(front + [last]) == Marks(front) + if last.Kept? then [true] else seq(|last.run|, _ => false)
  {
    assert (front + [last])[..|front|] == front;
  }

  lemma SegmentsStep(names: set<Path>, comps: Path, n: nat)
    requires 0 < n <= |comps| && Maximal(Segments(names, comps, n - 1))
    ensures Maximal(Segments(names, comps, n))
    ensures Flatten(Segments(names, comps, n)) == Flatten(Segments(names, comps, n - 1)) + [comps[n - 1]]
    ensures Marks(Segments(names, comps, n)) == Marks(Segments(names, comps, n - 1)) + [Written(names, comps, n - 1)]
  {
    ExtendedMaximal(Segments(names, comps, n - 1), comps[n - 1], Written(names, comps, n - 1));
    ExtendedFacts(Segments(names, comps, n - 1), comps[n - 1], Written(names, comps, n - 1));
  }

  /** One mark a component, and it says whether the component is written. */
  ghost predicate Marked(marks: seq<bool>, names: set<Path>, comps: Path, n: nat)
    requires n <= |comps|
  {
    |marks| == n && forall i :: 0 <= i < n ==> (marks[i] <==> Written(names, comps, i))
  }

  lemma MarkedStep(marks: seq<bool>, names: set<Path>, comps: Path, n: nat)
    requires 0 < n <= |comps| && Marked(marks, names, comps, n - 1)
    ensures Marked(marks + [Written(names, comps, n - 1)], names, comps, n)
  {
  }

  /**
   * Filling the gaps recovers the path; a component is shown exactly when it is the last or two names share
   * everything before it and differ in it; and every gap is a maximal run of the others.
   */
  lemma {:induction false} SegmentsExact(names: set<Path>, comps: Path, n: nat)
    requires n <= |comps|
    ensures Flatten(Segments(names, comps, n)) == comps[..n]
    ensures Marked(Marks(Segments(names, comps, n)), names, comps, n)
    ensures Maximal(Segments(names, comps, n))
  {
    if n > 0 {
      assert comps[..n - 1] + [comps[n - 1]] == comps[..n];
      SegmentsExact(names, comps, n - 1);
      SegmentsStep(names, comps, n);
      MarkedStep(Marks(Segments(names, comps, n - 1)), names, comps, n);
    }
  }

  lemma MarksLength(segments: seq<Segment>)
    ensures |Marks(segments)| == |Flatten(segments)|
    ensures Maximal(segments) && segments != [] ==> Flatten(segments) != []
  {
    if segments != [] {
      MarksLength(segments[..|segments| - 1]);
    }
  }

  /** A gap at the end starts where the path does or right after a shown component. */
  lemma LastGap(segments: seq<Segment>)
    requires Maximal(segments) && segments != [] && segments[|segments| - 1].Gap?
    ensures
      var marks, k := Marks(segments), |segments[|segments| - 1].run|;
      && 0 < k <= |marks| && (forall i :: |marks| - k <= i < |marks| ==> !marks[i])
      && (k < |marks| ==> marks[|marks| - k - 1])
  {
    var front := segments[..|segments| - 1];
    MarksLength(front);
    if front != [] {
      assert front[|front| - 1].Kept?;
    }
  }

  /** There is only one way to cut a path into shown components and maximal gaps. */
  lemma {:induction false} SegmentsUnique(a: seq<Segment>, b: seq<Segment>)
    requires Maximal(a) && Maximal(b) && Flatten(a) == Flatten(b) && Marks(a) == Marks(b)
    ensures a == b
    decreases |a|
  {
    MarksLength(a);
    MarksLength(b);
    if a == [] {
      assert b == [];
    } else {
      LastsAgree(a, b);
      SegmentsUnique(a[..|a| - 1], b[..|b| - 1]);
      assert a == a[..|a| - 1] + [a[|a| - 1]] && b == b[..|b| - 1] + [b[|b| - 1]];
    }
  }

  /** The components a segment stands for. */
  function Covered(segment: Segment): Path {
    match segment
    case Kept(c) => [c]
    case Gap(run) => run
  }

  lemma WithoutLast(segments: seq<Segment>)
    requires segments != []
    ensures
      var front, last := segments[..|segments| - 1], segments[|segments| - 1];
      && Flatten(segments) == Flatten(front) + Covered(last)
      && |Marks(segments)| >= |Covered(last)|
      && Marks(front) == Marks(segments)[..|Marks(segments)| - |Covered(last)|]
      && (last.Kept? ==> Marks(segments)[|Marks(segments)| - 1])
  {
  }

  lemma LastsAgree(a: seq<Segment>, b: seq<Segment>)
    requires a != [] && b != [] && Flatten(a) == Flatten(b) && Marks(a) == Marks(b)
    requires Maximal(a) && Maximal(b)
    ensures a[|a| - 1] == b[|b| - 1]
    ensures Flatten(a[..|a| - 1]) == Flatten(b[..|b| - 1]) && Marks(a[..|a| - 1]) == Marks(b[..|b| - 1])
  {
    var x, y := a[|a| - 1], b[|b| - 1];
    WithoutLast(a);
    WithoutLast(b);
    if x.Gap? {
      LastGap(a);
    }
    if y.Gap? {
      LastGap(b);
    }
    SameEnds(Flatten(a[..|a| - 1]), Flatten(b[..|b| - 1]), Covered(x), Covered(y));
  }

  lemma SameEnds<T>(a: seq<T>, b: seq<T>, c: seq<T>, d: seq<T>)
    requires a + c == b + d && |c| == |d|
    ensures a == b && c == d
  {
    assert a == (a + c)[..|a|] && b == (b + d)[..|b|];
    assert c == (a + c)[|a|..] && d == (b + d)[|b|..];
  }

  // ── the trie ───────────────────────────────────────────────────

  class TrieNode {
    var terminal: bool
    var children: map<string, TrieNode>

    constructor ()
      ensures !terminal && children == map[]
    {
      terminal, children := false, map[];
    }
  }

  /** Every node but the root is listed by its parent. */
  ghost predicate Listed<T>(at: map<Path, T>, kids: map<Path, map<string, T>>) {
    && kids.Keys == at.Keys
    && (forall p {:trigger Parent(p)} :: p in at && p != [] ==> Parent(p) in at && Last(p) in kids[Parent(p)])
  }

  /** Following a child leads to the node of the longer path. */
  ghost predicate Leading<T>(at: map<Path, T>, kids: map<Path, map<string, T>>) {
    forall p, c {:trigger kids[p][c]} :: p in kids && c in kids[p] ==> p + [c] in at && kids[p][c] == at[p + [c]]
  }

  lemma ShapeGrows<T>(at: map<Path, T>, kids: map<Path, map<string, T>>, prefix: Path, c: string, next: T)
    requires Listed(at, kids) && Leading(at, kids) && prefix in at && prefix + [c] !in at
    ensures
      var made := prefix + [c];
      var more := kids[prefix := kids[prefix][c := next]][made := map[]];
      Listed(at[made := next], more) && Leading(at[made := next], more)
  {
    var made := prefix + [c];
    var more := kids[prefix := kids[prefix][c := next]][made := map[]];
    forall p, d | p in more && d in more[p]
      ensures p + [d] in at[made := next] && more[p][d] == at[made := next][p + [d]]
    {
      if p == prefix && d == c {
      } else {
        assert p in kids && d in kids[p] && kids[p][d] == at[p + [d]];
      }
    }
    forall p | p in at[made := next] && p != [] ensures Parent(p) in at[made := next] && Last(p) in more[Parent(p)] {
      if p == made {
        assert Parent(p) == prefix && Last(p) == c;
      } else {
        assert Parent(p) in at && Parent(p) != made;
      }
    }
  }

  /** Every node reached is one of `nodes`, and none is reached twice. */
  ghost predicate HousedIn<T>(nodes: set<T>, at: map<Path, T>) {
    && (forall p :: p in at ==> at[p] in nodes)
    && (forall p, q :: p in at && q in at && p != q ==> at[p] != at[q])
  }

  lemma HousedGrows<T>(nodes: set<T>, at: map<Path, T>, made: Path, next: T)
    requires HousedIn(nodes, at) && made !in at && next !in nodes
    ensures HousedIn(nodes + {next}, at[made := next])
  {
  }

  class CollapseTrie {
    const root: TrieNode
    ghost var nodes: set<TrieNode>
    ghost var at: map<Path, TrieNode>                  // the node each path leads to
    ghost var kids: map<Path, map<string, TrieNode>>   // what that node lists
    ghost var names: set<Path>                         // what has been inserted

    ghost predicate Housed()
      reads this`nodes, this`at
    {
      HousedIn(nodes, at)
    }

    ghost predicate Linked()
      reads this`nodes, this`at, this`kids, nodes`children
    {
      && [] in at && at[[]] == root && Housed()
      && Listed(at, kids) && Leading(at, kids)
      && (forall p :: p in at ==> at[p].children == kids[p])
    }

    /** The marked nodes are those of the names in `ended`. */
    ghost predicate Ends(ended: set<Path>)
      requires Housed()
      reads this`nodes, this`at, nodes`terminal
    {
      ended <= at.Keys && forall p :: p in at ==> (at[p].terminal <==> p in ended)
    }

    /** There is a node for every prefix of an inserted name and no other, and the names' own nodes are marked. */
    ghost predicate Valid()
      reads this, nodes
    {
      Linked() && Ends(names) && forall p :: p in at <==> Leads(names, p)
    }

    constructor ()
      ensures Valid() && names == {} && fresh(nodes)
    {
      var node := new TrieNode();
      root := node;
      nodes, at, kids, names := {node}, map[[] := node], map[[] := map[]], {};
    }

    /** The child for one component, made if it is missing. */
    method Enter(ghost prefix: Path, node: TrieNode, c: string, ghost ended: set<Path>) returns (next: TrieNode)
      requires Linked() && Ends(ended) && prefix in at && at[prefix] == node
      modifies this`nodes, this`at, this`kids, node`children
      ensures Linked() && Ends(ended) && prefix + [c] in at && at[prefix + [c]] == next
      ensures at.Keys == old(at.Keys) + {prefix + [c]}
      ensures old(nodes) <= nodes && fresh(nodes - old(nodes))
    {
      ChildPresent(prefix, c);
      if c in node.children {
        return node.children[c];
      }
      next := AddChild(prefix, node, c);
    }

    lemma ChildPresent(prefix: Path, c: string)
      requires Linked() && prefix in at
      ensures c in at[prefix].children <==> prefix + [c] in at
      ensures c in at[prefix].children ==> at[prefix].children[c] == at[prefix + [c]]
    {
      assert Parent(prefix + [c]) == prefix && Last(prefix + [c]) == c;
      if c in kids[prefix] {
        assert kids[prefix][c] == at[prefix + [c]];
      }
    }

    method AddChild(ghost prefix: Path, node: TrieNode, c: string) returns (next: TrieNode)
      requires Linked() && prefix in at && at[prefix] == node && prefix + [c] !in at && c !in node.children
      modifies this`nodes, this`at, this`kids, node`children
      ensures Linked() && at == old(at)[prefix + [c] := next]
      ensures fresh(next) && nodes == old(nodes) + {next} && !next.terminal
    {
      ghost var led, made := at, prefix + [c];
      next := new TrieNode();
      ghost var more := kids[prefix := kids[prefix][c := next]][made := map[]];
      ShapeGrows(at, kids, prefix, c, next);
      HousedGrows(nodes, at, made, next);
      node.children := node.children[c := next];
      assert forall p :: p in led ==> led[p].children == more[p];
      nodes, at, kids := nodes + {next}, led[made := next], more;
    }

    /** Insert a name: its prefixes lead somewhere from now on, and its own node is marked. */
    method Insert(comps: Path)
      requires Valid()
      modifies this, nodes
      ensures Valid() && old(nodes) <= nodes && fresh(nodes - old(nodes))
      ensures names == Ended(old(names), comps, |comps|)
    {
      WalkDown(comps);
      LeadsMore(old(names), comps);
    }

    /** Walk down the name's components, making what is missing, and mark the node it ends at. */
    method WalkDown(comps: Path)
      requires Linked() && Ends(names)
      modifies this, nodes
      ensures Linked() && Ends(names)
      ensures old(nodes) <= nodes && fresh(nodes - old(nodes))
      ensures at.Keys == old(at.Keys) + Prefixes(comps)
      ensures names == Ended(old(names), comps, |comps|)
    {
      var node := root;
      ghost var keys, before := at.Keys, names;
      PrefixIn([], []);
      for i := 0 to |comps|
        invariant Linked() && Ends(names)
        invariant comps[..i] in at && at[comps[..i]] == node
        invariant old(nodes) <= nodes && fresh(nodes - old(nodes))
        invariant at.Keys == keys + Prefixes(comps[..i])
        invariant names == Ended(before, comps, i)
      {
        PrefixesGrow(comps, i);
        node := Step(comps, i, node);
      }
      assert comps[..|comps|] == comps;
    }

    method Step(comps: Path, i: nat, node: TrieNode) returns (next: TrieNode)
      requires Linked() && Ends(names) && i < |comps| && comps[..i] in at && at[comps[..i]] == node
      modifies this, nodes
      ensures Linked() && Ends(names) && comps[..i + 1] in at && at[comps[..i + 1]] == next
      ensures old(nodes) <= nodes && fresh(nodes - old(nodes))
      ensures at.Keys == old(at.Keys) + {comps[..i + 1]}
      ensures names == Ended(old(names), comps, i + 1)
    {
      PrefixesGrow(comps, i);
      next := Enter(comps[..i], node, comps[i], names);
      if i == |comps| - 1 {
        MarkEnd(comps, next);
      }
    }

    method MarkEnd(ghost comps: Path, node: TrieNode)
      requires Linked() && Ends(names) && comps in at && at[comps] == node
      modifies this`names, node`terminal
      ensures Linked() && Ends(names) && names == old(names) + {comps}
    {
      node.terminal := true;
      names := names + {comps};
    }

    /** One name against the tree. The lookup never fails for what has been inserted, or for what leads to it. */
    method Render(comps: Path) returns (text: string)
      requires Valid() && Leads(names, comps)
      ensures text == Rendered(names, comps)
    {
      var node := root;
      var pieces: seq<string> := [];
      var elided := false;
      for i := 0 to |comps|
        invariant comps[..i] in at && at[comps[..i]] == node
        invariant Drawn(pieces, elided, Segments(names, comps, i))
        invariant i == |comps| ==> !elided
      {
        var parentBranches;
        parentBranches, node := Below(comps, i, node);
        pieces, elided :=
          Draw(pieces, elided, comps[i], i == |comps| - 1 || parentBranches, Segments(names, comps, i));
      }
      if elided {
        pieces := pieces + [ELLIPSIS];
      }
      return Join(pieces, "/");
    }

    /** Whether names branch here, and the node of the name's next component. */
    method Below(comps: Path, i: nat, node: TrieNode) returns (branches: bool, next: TrieNode)
      requires Valid() && Leads(names, comps) && i < |comps| && comps[..i] in at && at[comps[..i]] == node
      ensures branches <==> Branches(names, comps[..i])
      ensures comps[..i + 1] in at && at[comps[..i + 1]] == next
    {
      Descend(comps, i);
      return |node.children| > 1, node.children[comps[i]];
    }

    /** The node a name goes through has more than one child exactly when names branch there. */
    lemma Descend(comps: Path, i: nat)
      requires Valid() && Leads(names, comps) && i < |comps| && comps[..i] in at
      ensures comps[i] in at[comps[..i]].children && comps[..i + 1] in at
      ensures at[comps[..i]].children[comps[i]] == at[comps[..i + 1]]
      ensures |at[comps[..i]].children| > 1 <==> Branches(names, comps[..i])
    {
      var p := comps[..i];
      assert comps[..i + 1] == p + [comps[i]];
      assert Leads(names, comps[..i + 1]);
      ChildrenContinue(p);
      ManyMeansBranches(names, p, at[p].children.Keys);
    }

    lemma ChildrenContinue(p: Path)
      requires Valid() && p in at
      ensures forall c :: c in at[p].children <==> exists n :: n in names && Continues(n, p) && n[|p|] == c
    {
      forall c ensures c in at[p].children <==> exists n :: n in names && Continues(n, p) && n[|p|] == c {
        ChildPresent(p, c);
        LeadsOn(names, p, c);
      }
    }
  }

  lemma LeadsOn(names: set<Path>, p: Path, c: string)
    ensures Leads(names, p + [c]) <==> exists n :: n in names && Continues(n, p) && n[|p|] == c
  {
    var q := p + [c];
    if Leads(names, q) {
      var n :| n in names && q <= n;
      assert Continues(n, p) && n[|p|] == c;
    }
    if n :| n in names && Continues(n, p) && n[|p|] == c {
      assert q <= n;
    }
  }

  lemma ManyMeansBranches(names: set<Path>, p: Path, next: set<string>)
    requires forall c :: c in next <==> exists n :: n in names && Continues(n, p) && n[|p|] == c
    ensures |next| > 1 <==> Branches(names, p)
  {
    MoreThanOne(next);
    if |next| > 1 {
      var c, d :| c in next && d in next && c != d;
      var a :| a in names && Continues(a, p) && a[|p|] == c;
      var b :| b in names && Continues(b, p) && b[|p|] == d;
    }
    if Branches(names, p) {
      var a, b :| a in names && b in names && Continues(a, p) && Continues(b, p) && a[|p|] != b[|p|];
      assert a[|p|] in next && b[|p|] in next;
    }
  }

  lemma MoreThanOne<T>(s: set<T>)
    ensures |s| > 1 <==> exists a, b :: a in s && b in s && a != b
  {
    if a :| a in s {
      assert |s - {a}| == |s| - 1;
      if b :| b in s - {a} {
        assert |s| > 1;
      } else {
        assert s == {a};
      }
    }
  }

  /** The loop's pieces and its pending ellipsis, as segments. */
  ghost predicate Drawn(pieces: seq<string>, elided: bool, segments: seq<Segment>) {
    if elided then segments != [] && segments[|segments| - 1].Gap? && pieces == Texts(segments[..|segments| - 1])
    else (segments == [] || segments[|segments| - 1].Kept?) && pieces == Texts(segments)
  }

  /** A component that is written goes after the ellipsis it ends, if there is one; any other is left for the next. */
  method Draw(pieces: seq<string>, elided: bool, c: string, written: bool, ghost segments: seq<Segment>)
    returns (more: seq<string>, gap: bool)
    requires Drawn(pieces, elided, segments)
    ensures Drawn(more, gap, Extended(segments, c, written)) && gap == !written
  {
    DrawnStep(pieces, elided, segments, c, written);
    if !written {
      return pieces, true;
    }
    return (if elided then pieces + [ELLIPSIS] else pieces) + [c], false;
  }

  lemma DrawnStep(pieces: seq<string>, elided: bool, segments: seq<Segment>, c: string, written: bool)
    requires Drawn(pieces, elided, segments)
    ensures
      Drawn(
        if written then pieces + (if elided then [ELLIPSIS] else []) + [c] else pieces,
        !written,
        Extended(segments, c, written))
  {
  }

  /** The marked names once the first `i` components of another have been walked. */
  ghost function Ended(names: set<Path>, comps: Path, i: nat): set<Path> {
    if comps != [] && i == |comps| then names + {comps} else names
  }

  lemma LeadsMore(names: set<Path>, comps: Path)
    ensures forall p :: Leads(Ended(names, comps, |comps|), p) <==> Leads(names, p) || p in Prefixes(comps)
  {
    forall p ensures Leads(Ended(names, comps, |comps|), p) <==> Leads(names, p) || p in Prefixes(comps) {
      PrefixIn(p, comps);
      if p != [] && p <= comps {
        assert comps in Ended(names, comps, |comps|);
      }
    }
  }

  lemma PrefixesGrow(comps: Path, i: nat)
    requires i < |comps|
    ensures comps[..i + 1] == comps[..i] + [comps[i]]
    ensures Prefixes(comps[..i + 1]) == Prefixes(comps[..i]) + {comps[..i + 1]}
    ensures comps[..i + 1] == comps <==> i == |comps| - 1
  {
    forall k ensures k in Prefixes(comps[..i + 1]) <==> k in Prefixes(comps[..i]) || k == comps[..i + 1] {
      PrefixIn(k, comps[..i + 1]);
      PrefixIn(k, comps[..i]);
    }
  }

  /** A prefix of some name, or the root. */
  ghost predicate Leads(names: set<Path>, p: Path) {
    p == [] || exists n :: n in names && p <= n
  }

  // ── the whole display ──────────────────────────────────────────

  /** The paths without repetitions, in the order of their first occurrence. */
  function Distinct(paths: seq<string>): (r: seq<string>)
    ensures forall p :: p in r <==> p in paths
    ensures forall i, j :: 0 <= i < j < |r| ==> r[i] != r[j]
  {
    if paths == [] then []
    else
      var front := Distinct(paths[..|paths| - 1]);
      assert forall p :: p in paths <==> p in paths[..|paths| - 1] || p == paths[|paths| - 1];
      if paths[|paths| - 1] in front then front else front + [paths[|paths| - 1]]
  }

  /** Path `i` is there for the first time. */
  predicate FirstAt(paths: seq<string>, i: nat) {
    i < |paths| && paths[i] !in paths[..i]
  }

  /** `at` lists where each different path comes for the first time, in order. */
  ghost predicate Firsts(paths: seq<string>, at: seq<nat>) {
    && (forall k :: 0 <= k < |at| ==> FirstAt(paths, at[k]))
    && (forall k, m :: 0 <= k < m < |at| ==> at[k] < at[m])
    && (forall i: nat :: FirstAt(paths, i) ==> i in at)
  }

  function FirstsOf(paths: seq<string>): seq<nat> {
    if paths == [] then []
    else
      var n := |paths| - 1;
      FirstsOf(paths[..n]) + if paths[n] in paths[..n] then [] else [n]
  }

  lemma {:induction false} FirstsOfAre(paths: seq<string>)
    ensures Firsts(paths, FirstsOf(paths))
  {
    if paths != [] {
      var n := |paths| - 1;
      FirstsOfAre(paths[..n]);
      FirstsGrow(paths, FirstsOf(paths[..n]));
    }
  }

  lemma FirstsGrow(paths: seq<string>, at: seq<nat>)
    requires paths != [] && Firsts(paths[..|paths| - 1], at)
    ensures Firsts(paths, at + if paths[|paths| - 1] in paths[..|paths| - 1] then [] else [|paths| - 1])
  {
    var n := |paths| - 1;
    var front, more := paths[..n], at + if paths[n] in paths[..n] then [] else [n];
    assert forall i: nat :: i <= n ==> paths[..i] == if i < n then front[..i] else front;
    forall k | 0 <= k < |more| ensures FirstAt(paths, more[k]) {
      if k < |at| {
        assert FirstAt(front, at[k]);
      }
    }
    forall i: nat | FirstAt(paths, i) ensures i in more {
      if i < n {
        assert FirstAt(front, i);
      }
    }
  }

  /** The kept paths are the first occurrences, in the order they come in. */
  lemma {:induction false} DistinctAtFirsts(paths: seq<string>)
    ensures |Distinct(paths)| == |FirstsOf(paths)|
    ensures forall k :: 0 <= k < |Distinct(paths)| ==>
      FirstsOf(paths)[k] < |paths| && Distinct(paths)[k] == paths[FirstsOf(paths)[k]]
  {
    if paths != [] {
      DistinctAtFirsts(paths[..|paths| - 1]);
    }
  }

  predicate NoRepeats(paths: seq<string>) {
    forall i, j :: 0 <= i < j < |paths| ==> paths[i] != paths[j]
  }

  lemma FirstsOfDifferent(paths: seq<string>, at: seq<nat>)
    requires NoRepeats(paths) && Firsts(paths, at)
    ensures |at| == |paths| && forall k :: 0 <= k < |at| ==> at[k] == k
  {
    forall i: nat | i < |paths| ensures i in at {
      assert FirstAt(paths, i);
    }
    RisingAll(at, |paths|);
  }

  /** A rising list of everything below `n` is the numbers themselves. */
  lemma {:induction false} RisingAll(at: seq<nat>, n: nat)
    requires forall k, m :: 0 <= k < m < |at| ==> at[k] < at[m]
    requires forall i: nat :: i < n <==> i in at
    ensures |at| == n && forall k :: 0 <= k < |at| ==> at[k] == k
  {
    if n == 0 {
      assert forall k :: 0 <= k < |at| ==> at[k] in at;
    } else {
      var last := |at| - 1;
      var greatest: nat := n - 1;
      assert greatest in at;
      var k :| 0 <= k < |at| && at[k] == greatest;
      assert at[last] in at;
      assert k == last;
      var front := at[..last];
      forall i: nat ensures i < n - 1 <==> i in front {
        if i < n - 1 {
          assert i in at;
          var m :| 0 <= m < |at| && at[m] == i;
          assert front[m] == i;
        }
        if i in front {
          var m :| 0 <= m < |front| && front[m] == i;
          assert at[m] in at && at[m] < at[last];
        }
      }
      RisingAll(front, n - 1);
    }
  }

  function Splits(paths: seq<string>): set<Path> {
    set p | p in paths :: Split(p)
  }

  method Deduplicate(paths: seq<string>) returns (kept: seq<string>)
    ensures kept == Distinct(paths)
  {
    kept := [];
    for i := 0 to |paths|
      invariant kept == Distinct(paths[..i])
    {
      assert paths[..i + 1][..i] == paths[..i];
      if paths[i] !in kept {
        kept := kept + [paths[i]];
      }
    }
    assert paths[..|paths|] == paths;
  }

  method SplitAll(paths: seq<string>) returns (comps: seq<Path>)
    ensures |comps| == |paths| && forall k :: 0 <= k < |paths| ==> comps[k] == Split(paths[k])
  {
    comps := [];
    for i := 0 to |paths|
      invariant |comps| == i && forall k :: 0 <= k < i ==> comps[k] == Split(paths[k])
    {
      comps := comps + [Split(paths[i])];
    }
  }

  function Members(comps: seq<Path>): set<Path> {
    set c | c in comps
  }

  lemma MembersGrow(comps: seq<Path>, i: nat)
    requires i < |comps|
    ensures Members(comps[..i + 1]) == Members(comps[..i]) + {comps[i]}
  {
    assert comps[..i + 1] == comps[..i] + [comps[i]];
  }

  method InsertAll(comps: seq<Path>) returns (trie: CollapseTrie)
    requires [] !in comps
    ensures trie.Valid() && trie.names == Members(comps) && fresh(trie) && fresh(trie.nodes)
  {
    trie := new CollapseTrie();
    for i := 0 to |comps|
      invariant trie.Valid() && trie.names == Members(comps[..i])
      invariant fresh(trie) && fresh(trie.nodes)
    {
      MembersGrow(comps, i);
      trie.Insert(comps[i]);
    }
    assert comps[..|comps|] == comps;
  }

  method RenderAll(trie: CollapseTrie, comps: seq<Path>) returns (shown: seq<string>)
    requires trie.Valid() && forall c :: c in comps ==> c in trie.names
    ensures |shown| == |comps|
    ensures forall k :: 0 <= k < |comps| ==> shown[k] == Rendered(trie.names, comps[k])
  {
    shown := [];
    for i := 0 to |comps|
      invariant |shown| == i
      invariant forall k :: 0 <= k < i ==> shown[k] == Rendered(trie.names, comps[k])
    {
      assert comps[i] in trie.names;
      var text := trie.Render(comps[i]);
      shown := shown + [text];
    }
  }

  lemma MembersAreSplits(comps: seq<Path>, kept: seq<string>, paths: seq<string>)
    requires |comps| == |kept| && forall k :: 0 <= k < |kept| ==> comps[k] == Split(kept[k])
    requires forall p :: p in kept <==> p in paths
    ensures Members(comps) == Splits(paths) && [] !in comps
  {
    forall c ensures c in Members(comps) <==> c in Splits(paths) {
      if c in Splits(paths) {
        var p :| p in paths && c == Split(p);
        var k :| 0 <= k < |kept| && kept[k] == p;
        assert comps[k] == c;
      }
    }
  }

  /** The texts are those of the first occurrences, in order, each drawn against all paths. */
  ghost predicate ShownInOrder(paths: seq<string>, at: seq<nat>, shown: seq<string>) {
    && Firsts(paths, at) && |shown| == |at|
    && forall k :: 0 <= k < |at| ==> at[k] < |paths| && shown[k] == Rendered(Splits(paths), Split(paths[at[k]]))
  }

  /** Each different path once, in the order it first comes in, drawn against all of them. */
  method CollapsePaths(paths: seq<string>) returns (shown: seq<string>)
    ensures exists at :: ShownInOrder(paths, at, shown)
    ensures NoRepeats(paths) ==>
      && |shown| == |paths|
      && forall k :: 0 <= k < |paths| ==> shown[k] == Rendered(Splits(paths), Split(paths[k]))
  {
    var kept := Deduplicate(paths);
    var comps := SplitAll(kept);
    MembersAreSplits(comps, kept, paths);
    var trie := InsertAll(comps);
    shown := RenderAll(trie, comps);
    FirstsOfAre(paths);
    DistinctAtFirsts(paths);
    assert ShownInOrder(paths, FirstsOf(paths), shown);
    if NoRepeats(paths) {
      FirstsOfDifferent(paths, FirstsOf(paths));
    }
  }

  lemma LoneStep(p: Path, n: nat)
    requires 0 < n < |p|
    ensures Segments({p}, p, n) == Extended(Segments({p}, p, n - 1), p[n - 1], false)
  {
    assert !Branches({p}, p[..n - 1]);
  }

  lemma {:induction false} LoneSegments(p: Path, n: nat)
    requires 0 < n < |p|
    ensures Segments({p}, p, n) == [Gap(p[..n])]
  {
    LoneStep(p, n);
    assert p[..n] == p[..n - 1] + [p[n - 1]];
    if n == 1 {
      assert Segments({p}, p, 0) == [] && [p[0]] == p[..1];
    } else {
      LoneSegments(p, n - 1);
      assert Extended([Gap(p[..n - 1])], p[n - 1], false) == [] + [Gap(p[..n - 1] + [p[n - 1]])];
    }
  }

  lemma ShownAlone(c: string)
    ensures Join(Texts([Kept(c)]), "/") == c
  {
    assert [Kept(c)][..0] == [];
  }

  lemma ShownBehindGap(run: Path, c: string)
    ensures Join(Texts([Gap(run), Kept(c)]), "/") == "..." + "/" + c
  {
    var both := [Gap(run), Kept(c)];
    assert both[..1] == [Gap(run)] && [Gap(run)][..0] == [];
    assert Texts([Gap(run)]) == [] + ["..."];
    assert Texts(both) == Texts([Gap(run)]) + [c];
    assert ["...", c][1..] == [c];
  }

  /** A path on its own is shown by its last component, behind dots for all the others if there are any. */
  lemma LoneName(p: Path)
    requires p != []
    ensures Rendered({p}, p) == if |p| == 1 then p[0] else "..." + "/" + p[|p| - 1]
  {
    var n := |p| - 1;
    assert Segments({p}, p, |p|) == Extended(Segments({p}, p, n), p[n], true);
    if n == 0 {
      assert Segments({p}, p, 1) == [Kept(p[0])];
      ShownAlone(p[0]);
    } else {
      LoneSegments(p, n);
      assert Extended([Gap(p[..n])], p[n], true) == [Gap(p[..n]), Kept(p[n])];
      ShownBehindGap(p[..n], p[n]);
    }
  }

  // ── which names look alike ─────────────────────────────────────

  lemma {:induction false} TextsAt(segments: seq<Segment>)
    ensures |Texts(segments)| == |segments|
    ensures forall k :: 0 <= k < |segments| ==> Texts(segments)[k] == Shown(segments[k])
  {
    if segments != [] {
      TextsAt(segments[..|segments| - 1]);
    }
  }

  /** Before they part, and before either ends, two names are cut up alike. */
  lemma {:induction false} SharedFront(names: set<Path>, p: Path, q: Path, n: nat)
    requires n < |p| && n < |q| && p[..n] == q[..n]
    ensures Segments(names, p, n) == Segments(names, q, n)
  {
    if n > 0 {
      assert p[..n][..n - 1] == p[..n - 1] && q[..n][..n - 1] == q[..n - 1];
      assert p[n - 1] == p[..n][n - 1] && q[n - 1] == q[..n][n - 1];
      SharedFront(names, p, q, n - 1);
    }
  }

  predicate Holds(segments: seq<Segment>, k: nat, c: string) {
    k < |segments| && segments[k] == Kept(c)
  }

  lemma ShownStays(segments: seq<Segment>, c: string, written: bool, k: nat, shown: string)
    requires Holds(segments, k, shown)
    ensures Holds(Extended(segments, c, written), k, shown)
  {
  }

  lemma ShownLast(segments: seq<Segment>, c: string)
    ensures Holds(Extended(segments, c, true), |segments|, c)
  {
  }

  /** A written component stays where it is, however the path goes on. */
  lemma {:induction false} KeptStays(names: set<Path>, p: Path, m: nat, n: nat)
    requires m < n <= |p| && Written(names, p, m)
    ensures Holds(Segments(names, p, n), |Segments(names, p, m)|, p[m])
    decreases n
  {
    if n == m + 1 {
      ShownLast(Segments(names, p, m), p[m]);
    } else {
      KeptStays(names, p, m, n - 1);
      ShownStays(Segments(names, p, n - 1), p[n - 1], Written(names, p, n - 1), |Segments(names, p, m)|, p[m]);
    }
  }

  ghost predicate SlashFree(p: Path) {
    forall c :: c in p ==> '/' !in c
  }

  lemma {:induction false} TextsSlashFree(names: set<Path>, p: Path, n: nat)
    requires n <= |p| && SlashFree(p)
    ensures forall t :: t in Texts(Segments(names, p, n)) ==> '/' !in t
  {
    SegmentsKeep(names, p, n);
    TextsAt(Segments(names, p, n));
  }

  lemma {:induction false} SegmentsKeep(names: set<Path>, p: Path, n: nat)
    requires n <= |p|
    ensures forall s :: s in Segments(names, p, n) && s.Kept? ==> s.component in p
    ensures n > 0 ==> Segments(names, p, n) != []
  {
    if n > 0 {
      SegmentsKeep(names, p, n - 1);
    }
  }

  /** Two names look alike exactly when their pieces do. */
  lemma AlikeByPieces(names: set<Path>, p: Path, q: Path)
    requires p != [] && q != [] && SlashFree(p) && SlashFree(q)
    ensures Rendered(names, p) == Rendered(names, q) <==>
      Texts(Segments(names, p, |p|)) == Texts(Segments(names, q, |q|))
  {
    TextsSlashFree(names, p, |p|);
    TextsSlashFree(names, q, |q|);
    SegmentsKeep(names, p, |p|);
    SegmentsKeep(names, q, |q|);
    TextsAt(Segments(names, p, |p|));
    TextsAt(Segments(names, q, |q|));
    JoinInjective(Texts(Segments(names, p, |p|)), Texts(Segments(names, q, |q|)));
  }

  lemma PartingDiffers(names: set<Path>, p: Path, q: Path, d: nat)
    requires p in names && q in names && SlashFree(p) && SlashFree(q)
    requires d < |p| && d < |q| && p[..d] == q[..d] && p[d] != q[d]
    ensures Rendered(names, p) != Rendered(names, q)
  {
    assert Continues(p, p[..d]) && Continues(q, p[..d]);
    SharedFront(names, p, q, d);
    KeptStays(names, p, d, |p|);
    KeptStays(names, q, d, |q|);
    TextsAt(Segments(names, p, |p|));
    TextsAt(Segments(names, q, |q|));
    AlikeByPieces(names, p, q);
  }

  lemma Parting(p: Path, q: Path) returns (d: nat)
    requires !(p <= q) && !(q <= p)
    ensures d < |p| && d < |q| && p[..d] == q[..d] && p[d] != q[d]
  {
    d := 0;
    while p[d] == q[d]
      invariant d < |p| && d < |q| && p[..d] == q[..d]
      decreases |p| - d
    {
      assert p[..d + 1] == q[..d + 1];
      d := d + 1;
    }
  }

  /**
   * When a name `q` that goes on beyond `p` looks like it: `p` ends in an ellipsis and its last component,
   * nothing sets names apart from there to the last component of `q`, and the two last components are the same.
   */
  ghost predicate Hides(names: set<Path>, p: Path, q: Path) {
    && p <= q && 2 <= |p| < |q|
    && !Branches(names, p[..|p| - 2])
    && Silent(names, q, |p| - 1, |q| - 1)
    && p[|p| - 1] == q[|q| - 1]
  }

  lemma {:induction false} SegmentsGrow(names: set<Path>, p: Path, m: nat, n: nat)
    requires m <= n <= |p|
    ensures |Segments(names, p, m)| <= |Segments(names, p, n)|
    decreases n
  {
    if m < n {
      SegmentsGrow(names, p, m, n - 1);
    }
  }

  ghost predicate EndsInGap(segments: seq<Segment>) {
    segments != [] && segments[|segments| - 1].Gap?
  }

  ghost function Dotted(texts: seq<string>, gap: bool): seq<string> {
    if gap then texts else texts + [ELLIPSIS]
  }

  /** An unwritten component shows as an ellipsis, unless there is one there already. */
  lemma UnwrittenStep(names: set<Path>, p: Path, n: nat)
    requires 0 < n < |p| && !Branches(names, p[..n - 1])
    ensures EndsInGap(Segments(names, p, n))
    ensures
      Texts(Segments(names, p, n)) == Dotted(Texts(Segments(names, p, n - 1)), EndsInGap(Segments(names, p, n - 1)))
  {
    UnwrittenText(Segments(names, p, n - 1), p[n - 1]);
  }

  lemma UnwrittenText(segments: seq<Segment>, c: string)
    ensures
      var v := Extended(segments, c, false);
      && EndsInGap(v)
      && Texts(v) == Dotted(Texts(segments), EndsInGap(segments))
  {
    TextsAt(Extended(segments, c, false));
    TextsAt(segments);
  }

  ghost predicate Silent(names: set<Path>, p: Path, m: nat, n: nat)
    requires n <= |p|
  {
    forall i :: m <= i < n ==> !Branches(names, p[..i])
  }

  /** An unwritten stretch is one more ellipsis, or lengthens the gap it follows. */
  lemma {:induction false} SilentStretch(names: set<Path>, p: Path, m: nat, n: nat)
    requires m < n < |p| && Silent(names, p, m, n)
    ensures EndsInGap(Segments(names, p, n))
    ensures
      Texts(Segments(names, p, n)) == Dotted(Texts(Segments(names, p, m)), EndsInGap(Segments(names, p, m)))
    decreases n
  {
    UnwrittenStep(names, p, n);
    if n > m + 1 {
      SilentStretch(names, p, m, n - 1);
    }
  }

  /** The last component is always written. */
  lemma LastStep(names: set<Path>, p: Path)
    requires p != []
    ensures Texts(Segments(names, p, |p|)) == Texts(Segments(names, p, |p| - 1)) + [p[|p| - 1]]
  {
    WrittenText(Segments(names, p, |p| - 1), p[|p| - 1]);
  }

  /** Anything written between where `p` ends and where `q` does makes `q` longer. */
  lemma LoudIsLonger(names: set<Path>, q: Path, m: nat, i: nat)
    requires m <= i < |q| - 1 && Branches(names, q[..i])
    ensures |Texts(Segments(names, q, |q|))| > |Texts(Segments(names, q, m))| + 1
  {
    SegmentsGrow(names, q, m, i);
    assert Segments(names, q, i + 1) == Segments(names, q, i) + [Kept(q[i])];
    SegmentsGrow(names, q, i + 1, |q| - 1);
    LastStep(names, q);
    TextsAt(Segments(names, q, m));
    TextsAt(Segments(names, q, |q| - 1));
  }

  lemma NestedAlike(names: set<Path>, p: Path, q: Path)
    requires p != [] && p <= q && p != q && SlashFree(p) && SlashFree(q)
    ensures Rendered(names, p) == Rendered(names, q) <==> Hides(names, p, q)
  {
    AlikeByPieces(names, p, q);
    NestedPieces(names, p, q);
  }

  lemma NestedPieces(names: set<Path>, p: Path, q: Path)
    requires p != [] && p <= q && p != q
    ensures Texts(Segments(names, p, |p|)) == Texts(Segments(names, q, |q|)) <==> Hides(names, p, q)
  {
    var n := |p| - 1;
    SharedFront(names, p, q, n);
    if Silent(names, q, n, |q| - 1) {
      QuietTail(names, p, q);
    } else {
      var i :| n <= i < |q| - 1 && Branches(names, q[..i]);
      LastStep(names, p);
      LoudIsLonger(names, q, n, i);
    }
  }

  lemma QuietTail(names: set<Path>, p: Path, q: Path)
    requires p != [] && |p| < |q| && Silent(names, q, |p| - 1, |q| - 1)
    requires Segments(names, p, |p| - 1) == Segments(names, q, |p| - 1)
    ensures
      Texts(Segments(names, p, |p|)) == Texts(Segments(names, q, |q|)) <==>
      |p| >= 2 && !Branches(names, p[..|p| - 2]) && p[|p| - 1] == q[|q| - 1]
  {
    var front := Segments(names, p, |p| - 1);
    LastStep(names, p);
    QuietEnd(names, q, |p| - 1);
    SameTail(Texts(front), EndsInGap(front), p[|p| - 1], q[|q| - 1]);
    FrontEnds(names, p);
  }

  lemma QuietEnd(names: set<Path>, q: Path, m: nat)
    requires m < |q| - 1 && Silent(names, q, m, |q| - 1)
    ensures
      Texts(Segments(names, q, |q|)) ==
      Dotted(Texts(Segments(names, q, m)), EndsInGap(Segments(names, q, m))) + [q[|q| - 1]]
  {
    LastStep(names, q);
    SilentStretch(names, q, m, |q| - 1);
  }

  lemma SameTail(front: seq<string>, gap: bool, x: string, y: string)
    ensures front + [x] == Dotted(front, gap) + [y] <==> gap && x == y
  {
    var left, right := front + [x], Dotted(front, gap) + [y];
    assert left[|left| - 1] == x && right[|right| - 1] == y;
  }

  lemma WrittenText(segments: seq<Segment>, c: string)
    ensures Texts(segments + [Kept(c)]) == Texts(segments) + [c]
  {
    assert (segments + [Kept(c)])[..|segments|] == segments;
  }

  lemma FrontEnds(names: set<Path>, p: Path)
    requires p != []
    ensures EndsInGap(Segments(names, p, |p| - 1)) <==> |p| >= 2 && !Branches(names, p[..|p| - 2])
  {
    var n := |p| - 1;
    if n > 0 {
      assert Segments(names, p, n) == Extended(Segments(names, p, n - 1), p[n - 1], Branches(names, p[..n - 1]));
    }
  }

  /** Two different names look alike exactly when one hides the other. */
  lemma LookAlike(names: set<Path>, p: Path, q: Path)
    requires p in names && q in names && p != q && p != [] && q != [] && SlashFree(p) && SlashFree(q)
    ensures Rendered(names, p) == Rendered(names, q) <==> Hides(names, p, q) || Hides(names, q, p)
  {
    if p <= q {
      NestedAlike(names, p, q);
    } else if q <= p {
      NestedAlike(names, q, p);
    } else {
      var d := Parting(p, q);
      PartingDiffers(names, p, q, d);
    }
  }

  /** With no name inside another, all are shown differently. */
  lemma PrefixFreeAllDiffer(paths: seq<string>, i: nat, j: nat)
    requires i < j < |Distinct(paths)|
    requires forall p, q :: p in paths && q in paths && p != q ==> !(Split(p) <= Split(q))
    ensures Rendered(Splits(paths), Split(Distinct(paths)[i])) != Rendered(Splits(paths), Split(Distinct(paths)[j]))
  {
    var p, q := Distinct(paths)[i], Distinct(paths)[j];
    assert p in Distinct(paths) && q in Distinct(paths);
    assert !(Split(p) <= Split(q)) && !(Split(q) <= Split(p));
    LookAlike(Splits(paths), Split(p), Split(q));
  }

  /** With only `a/b` and `a/b/b` to show, both are shown as the same text. */
  lemma NestedPairLooksAlike(a: string, b: string)
    requires '/' !in a && '/' !in b
    ensures
      var paths := [a + "/" + b, a + "/" + b + "/" + b];
      && Split(paths[0]) == [a, b] && Split(paths[1]) == [a, b, b]
      && Rendered(Splits(paths), [a, b]) == Rendered(Splits(paths), [a, b, b])
  {
    var paths := [a + "/" + b, a + "/" + b + "/" + b];
    SplitAtSlash(a, b);
    SplitPlain(b);
    SplitAtSlash(b, b);
    SplitAtSlash(a, b + "/" + b);
    assert paths[1] == a + "/" + (b + "/" + b);
    assert Split(paths[0]) == [a, b] && Split(paths[1]) == [a, b, b];
    var names := Splits(paths);
    assert names == {[a, b], [a, b, b]};
    PairHides(a, b);
    LookAlike(names, [a, b], [a, b, b]);
  }

  lemma PairHides(a: string, b: string)
    ensures Hides({[a, b], [a, b, b]}, [a, b], [a, b, b])
  {
    var p, q := [a, b], [a, b, b];
    assert p == q[..2];
    assert p[..0] == [] && q[..1] == [a];
  }
}
