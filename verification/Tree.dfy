/** The frozen tree of served names: files at their full paths, directories as pure structure. */
module Tree {
  import opened Text
  import opened Paths

  datatype Node = File(fino: nat, mode: nat) | Dir(children: set<string>)

  type Tree = map<Path, Node>

  predicate IsDir(t: Tree, p: Path) {
    p in t && t[p].Dir?
  }

  predicate IsFile(t: Tree, p: Path) {
    p in t && t[p].File?
  }

  /** Every node hangs under a directory that lists it. Holds whatever names were served or removed. */
  ghost predicate Rooted(t: Tree) {
    && IsDir(t, [])
    && (forall p {:trigger Parent(p)} :: p in t && p != [] ==> IsDir(t, Parent(p)) && Last(p) in t[Parent(p)].children)
  }

  /** Directories list nothing but their nodes, and only the root may be empty. */
  ghost predicate Exact(t: Tree) {
    && (forall p, c :: IsDir(t, p) && c in t[p].children ==> p + [c] in t)
    && (forall p :: IsDir(t, p) && p != [] ==> t[p].children != {})
  }

  ghost predicate Tidy(t: Tree) {
    Rooted(t) && Exact(t)
  }

  // ── shape of a rooted tree ─────────────────────────────────────

  lemma {:induction false} PrefixesPresent(t: Tree, p: Path, i: nat)
    requires Rooted(t) && p in t && i <= |p|
    ensures p[..i] in t && (i < |p| ==> IsDir(t, p[..i]) && p[i] in t[p[..i]].children)
    decreases |p|
  {
    if i < |p| {
      assert IsDir(t, Parent(p));
      if i < |p| - 1 {
        PrefixesPresent(t, Parent(p), i);
        assert Parent(p)[..i] == p[..i];
      }
    } else {
      assert p[..i] == p;
    }
  }

  /** Nothing hangs under a file or under a path that is not there. */
  lemma NothingBelow(t: Tree, p: Path, q: Path)
    requires Rooted(t) && !IsDir(t, p) && q in t && p <= q
    ensures q == p
  {
    if q != p {
      assert q[..|p|] == p;
      PrefixesPresent(t, q, |p|);
    }
  }

  lemma DepthBound(t: Tree, p: Path)
    requires Rooted(t) && p in t
    ensures |p| < |t|
  {
    forall k | k in Prefixes(p) ensures k in t.Keys {
      PrefixIn(k, p);
      PrefixesPresent(t, p, |k|);
      assert p[..|k|] == k;
    }
    PrefixCount(p);
    SubsetSize(Prefixes(p), t.Keys);
  }

  lemma {:induction false} SubsetSize<T>(a: set<T>, b: set<T>)
    requires a <= b
    ensures |a| <= |b|
  {
    if a != {} {
      var x :| x in a;
      SubsetSize(a - {x}, b - {x});
    }
  }

  /** Every directory of a tidy tree leads to a file, except an empty root. */
  lemma FileBelow(t: Tree, p: Path) returns (f: Path)
    requires Tidy(t) && IsDir(t, p) && (p != [] || t[p].children != {})
    ensures IsFile(t, f) && p <= f && p != f
    decreases |t| - |p|
  {
    var c :| c in t[p].children;
    var q := p + [c];
    DepthBound(t, q);
    if t[q].File? {
      f := q;
    } else {
      f := FileBelow(t, q);
    }
  }

  // ── growing a branch ───────────────────────────────────────────

  /** A file already sits on the way to `p`. */
  ghost predicate Blocked(t: Tree, p: Path) {
    exists i :: 0 <= i < |p| && IsFile(t, p[..i])
  }

  function Listed(t: Tree, p: Path): set<string> {
    if p in t && t[p].Dir? then t[p].children else {}
  }

  /** The tree with every directory on the way to `p` in place and listing the next one, and `node` at `p`. */
  function Grown(t: Tree, p: Path, node: Node): Tree {
    map k | k in t.Keys + Prefixes(p) ::
      if k == p then node
      else if k <= p then Dir(Listed(t, k) + {p[|k|]})
      else t[k]
  }

  lemma GrownAt(t: Tree, p: Path, node: Node, k: Path)
    ensures k in Grown(t, p, node) <==> k in t || k <= p
    ensures k == p ==> Grown(t, p, node)[k] == node
    ensures k <= p && k != p ==> Grown(t, p, node)[k] == Dir(Listed(t, k) + {p[|k|]})
    ensures k in t && !(k <= p) ==> Grown(t, p, node)[k] == t[k]
  {
    PrefixIn(k, p);
  }

  /** Growing to a node that is there, without changing it, changes nothing. */
  lemma GrownNoop(t: Tree, p: Path)
    requires Rooted(t) && p in t
    ensures Grown(t, p, t[p]) == t
  {
    forall k ensures (k in Grown(t, p, t[p]) <==> k in t) && (k in t ==> Grown(t, p, t[p])[k] == t[k]) {
      GrownAt(t, p, t[p], k);
      if k <= p {
        assert p[..|k|] == k;
        PrefixesPresent(t, p, |k|);
        if k != p {
          assert t[k].children + {p[|k|]} == t[k].children;
        }
      }
    }
  }

  /** One more component: list it in the directory reached so far, and put a node there. */
  lemma GrownStep(t: Tree, p: Path, c: string, node: Node)
    ensures Grown(t, p, Dir(Listed(t, p)))[p := Dir(Listed(t, p) + {c})][p + [c] := node] == Grown(t, p + [c], node)
  {
    var q := p + [c];
    var stepped := Grown(t, p, Dir(Listed(t, p)))[p := Dir(Listed(t, p) + {c})][q := node];
    assert q != p && q[|p|] == c;
    forall k
      ensures k in stepped <==> k in Grown(t, q, node)
      ensures k in Grown(t, q, node) ==> stepped[k] == Grown(t, q, node)[k]
    {
      BelowOneMore(k, p, c);
      GrownAt(t, p, Dir(Listed(t, p)), k);
      GrownAt(t, q, node, k);
    }
  }

  lemma BelowOneMore(k: Path, p: Path, c: string)
    ensures k <= p + [c] <==> k <= p || k == p + [c]
    ensures k <= p && k != p ==> (p + [c])[|k|] == p[|k|]
  {
  }

  lemma GrownRooted(t: Tree, p: Path, node: Node)
    requires Rooted(t) && p != [] && !Blocked(t, p) && !IsDir(t, p) && node.File?
    ensures Rooted(Grown(t, p, node))
  {
    var g := Grown(t, p, node);
    GrownAt(t, p, node, []);
    forall k | k in g && k != [] ensures IsDir(g, Parent(k)) && Last(k) in g[Parent(k)].children {
      var up := Parent(k);
      GrownAt(t, p, node, k);
      GrownAt(t, p, node, up);
      if k <= p {
        assert up <= p && p[|up|] == Last(k);
      } else {
        assert IsDir(t, up);
      }
    }
  }

  lemma GrownChild(t: Tree, p: Path, node: Node, k: Path, c: string)
    requires Exact(t) && node.File? && IsDir(Grown(t, p, node), k) && c in Grown(t, p, node)[k].children
    ensures k + [c] in Grown(t, p, node)
  {
    GrownAt(t, p, node, k);
    GrownAt(t, p, node, k + [c]);
    if k <= p && k != p && c == p[|k|] {
      assert k + [c] <= p;
    } else {
      assert IsDir(t, k) && c in t[k].children;
    }
  }

  lemma GrownExact(t: Tree, p: Path, node: Node)
    requires Exact(t) && p != [] && node.File?
    ensures Exact(Grown(t, p, node))
  {
    var g := Grown(t, p, node);
    forall k, c | IsDir(g, k) && c in g[k].children ensures k + [c] in g {
      GrownChild(t, p, node, k, c);
    }
    forall k | IsDir(g, k) && k != [] ensures g[k].children != {} {
      GrownAt(t, p, node, k);
      if k <= p {
        assert p[|k|] in g[k].children;
      }
    }
  }

  // ── pruning a branch ───────────────────────────────────────────

  /**
   * The tree after the walk up from `p`, whose node is gone: its parent stops listing it, and if that
   * leaves the parent empty it goes too. The walk stops at the root, at a directory still in use, and at
   * a special component, which has no name to stop listing.
   */
  function Prune(t: Tree, p: Path): Tree
    decreases |p|
  {
    if p == [] || !Ordinary(Last(p)) || !IsDir(t, Parent(p)) then t
    else
      var left := t[Parent(p)].children - {Last(p)};
      if left == {} && Parent(p) != [] then Prune(t - {Parent(p)}, Parent(p))
      else t[Parent(p) := Dir(left)]
  }

  /** Whether the walk up from `p` reaches the root or a directory in use without meeting a special component. */
  predicate Walks(t: Tree, p: Path)
    decreases |p|
  {
    if p == [] then true
    else if !Ordinary(Last(p)) then false
    else if !IsDir(t, Parent(p)) then true
    else
      t[Parent(p)].children - {Last(p)} == {} && Parent(p) != [] ==> Walks(t - {Parent(p)}, Parent(p))
  }

  lemma RemoveLeafRooted(t: Tree, p: Path)
    requires Rooted(t) && p != []
    requires forall q :: q in t && p <= q ==> q == p
    ensures Rooted(t - {p})
  {
    forall k | k in t - {p} && k != [] ensures Parent(k) != p {
      assert p <= k || Parent(k) != p;
    }
  }

  /** What hangs under the parent of a missing node is listed there under another name. */
  lemma StillListed(t: Tree, p: Path, q: Path)
    requires Rooted(t) && p != [] && p !in t && q in t && Parent(p) <= q && q != Parent(p)
    ensures IsDir(t, Parent(p)) && q[|p| - 1] in t[Parent(p)].children - {Last(p)}
  {
    var n := |p| - 1;
    assert q[..n] == Parent(p);
    PrefixesPresent(t, q, n);
    PrefixesPresent(t, q, n + 1);
    assert q[..n + 1] == Parent(p) + [q[n]];
    assert p == Parent(p) + [Last(p)];
  }

  lemma UnlistRooted(t: Tree, p: Path)
    requires Rooted(t) && p != [] && p !in t && IsDir(t, Parent(p))
    ensures Rooted(t[Parent(p) := Dir(t[Parent(p)].children - {Last(p)})])
  {
    var up := Parent(p);
    var u := t[up := Dir(t[up].children - {Last(p)})];
    forall k | k in u && k != [] ensures IsDir(u, Parent(k)) && Last(k) in u[Parent(k)].children {
      if Parent(k) == up {
        StillListed(t, p, k);
      }
    }
  }

  lemma {:induction false} PruneRooted(t: Tree, p: Path)
    requires Rooted(t) && p !in t
    ensures Rooted(Prune(t, p))
    decreases |p|
  {
    if p != [] && Ordinary(Last(p)) && IsDir(t, Parent(p)) {
      var up := Parent(p);
      if t[up].children - {Last(p)} == {} && up != [] {
        forall q | q in t && up <= q ensures q == up {
          if q != up {
            StillListed(t, p, q);
          }
        }
        RemoveLeafRooted(t, up);
        PruneRooted(t - {up}, up);
      } else {
        UnlistRooted(t, p);
      }
    }
  }

  /** A tidy tree from which the node `p` has just been taken: its parent still lists it, and maybe nothing else. */
  ghost predicate TidyBut(t: Tree, p: Path) {
    && Rooted(t) && p != [] && p !in t && IsDir(t, Parent(p)) && Last(p) in t[Parent(p)].children
    && (forall k, c :: IsDir(t, k) && c in t[k].children ==> k + [c] in t || k + [c] == p)
    && (forall k :: IsDir(t, k) && k != [] ==> t[k].children != {})
  }

  /** A directory that lists nothing but a path whose node is gone has nothing below it. */
  lemma NothingElseBelow(t: Tree, p: Path, q: Path)
    requires TidyBut(t, p) && Parent(p) != [] && t[Parent(p)].children - {Last(p)} == {}
    requires q in t && Parent(p) <= q
    ensures q == Parent(p)
  {
    if q != Parent(p) {
      StillListed(t, p, q);
    }
  }

  /** Its own children are the only ones to go missing with it. */
  lemma ChildrenWithout(t: Tree, p: Path, k: Path, c: string)
    requires TidyBut(t, p) && Parent(p) != [] && t[Parent(p)].children - {Last(p)} == {}
    requires k != Parent(p) && IsDir(t, k) && c in t[k].children
    ensures k + [c] in t
  {
    assert Parent(k + [c]) == k;
  }

  lemma ListedAbove(t: Tree, p: Path)
    requires Rooted(t) && p in t && p != []
    ensures IsDir(t, Parent(p)) && Last(p) in t[Parent(p)].children && Parent(p) != p
  {
  }

  /** An emptied directory goes, and the question moves up to it. */
  lemma TidyButParent(t: Tree, p: Path)
    requires TidyBut(t, p) && Parent(p) != [] && t[Parent(p)].children - {Last(p)} == {}
    ensures TidyBut(t - {Parent(p)}, Parent(p))
  {
    var up := Parent(p);
    var v := t - {up};
    assert Rooted(v) by {
      forall q | q in t && up <= q ensures q == up {
        NothingElseBelow(t, p, q);
      }
      RemoveLeafRooted(t, up);
    }
    ListedAbove(t, up);
    forall k, c | IsDir(v, k) && c in v[k].children ensures k + [c] in v || k + [c] == up {
      ChildrenWithout(t, p, k, c);
    }
  }

  /** A directory still in use, or the root, stays and everything is in order. */
  lemma TidyAfterUnlisting(t: Tree, p: Path)
    requires TidyBut(t, p) && (Parent(p) == [] || t[Parent(p)].children - {Last(p)} != {})
    ensures Tidy(t[Parent(p) := Dir(t[Parent(p)].children - {Last(p)})])
  {
    var u := t[Parent(p) := Dir(t[Parent(p)].children - {Last(p)})];
    UnlistRooted(t, p);
    forall k, c | IsDir(u, k) && c in u[k].children ensures k + [c] in u {
      assert Parent(k + [c]) == k && Last(k + [c]) == c;
    }
  }

  lemma StillDangling(t: Tree, p: Path)
    requires p != [] && p !in t && IsDir(t, Parent(p)) && Last(p) in t[Parent(p)].children
    ensures !Exact(t)
  {
    assert Parent(p) + [Last(p)] == p;
  }

  /** The walk restores tidiness exactly when it is not cut short. */
  lemma {:induction false} PruneTidy(t: Tree, p: Path)
    requires TidyBut(t, p)
    ensures Tidy(Prune(t, p)) <==> Walks(t, p)
    decreases |p|
  {
    var up := Parent(p);
    if !Ordinary(Last(p)) {
      assert Prune(t, p) == t && !Walks(t, p);
      StillDangling(t, p);
    } else if t[up].children - {Last(p)} == {} && up != [] {
      assert Prune(t, p) == Prune(t - {up}, up) && Walks(t, p) == Walks(t - {up}, up);
      TidyButParent(t, p);
      PruneTidy(t - {up}, up);
    } else {
      assert Prune(t, p) == t[up := Dir(t[up].children - {Last(p)})] && Walks(t, p);
      TidyAfterUnlisting(t, p);
    }
  }

  lemma {:induction false} OrdinaryWalks(t: Tree, p: Path)
    requires forall c :: c in p ==> Ordinary(c)
    ensures Walks(t, p)
    decreases |p|
  {
    if p != [] && IsDir(t, Parent(p)) {
      assert Last(p) in p && forall c :: c in Parent(p) ==> c in p;
      OrdinaryWalks(t - {Parent(p)}, Parent(p));
    }
  }

  // ── growing a branch and pruning it again ──────────────────────

  /** What growing a branch to `p` leaves once the node at `p` itself is taken away. */
  function Branch(t: Tree, p: Path): Tree {
    Grown(t, p, File(0, 0)) - {p}
  }

  /** Every component that growing to `p` has to create is ordinary. */
  ghost predicate NewOrdinary(t: Tree, p: Path) {
    forall i :: 1 <= i <= |p| && p[..i] !in t ==> Ordinary(p[i - 1])
  }

  lemma BranchAt(t: Tree, p: Path, k: Path)
    ensures k in Branch(t, p) <==> (k in t || k <= p) && k != p
    ensures k <= p && k != p ==> Branch(t, p)[k] == Dir(Listed(t, k) + {p[|k|]})
    ensures k in t && !(k <= p) ==> Branch(t, p)[k] == t[k]
  {
    GrownAt(t, p, File(0, 0), k);
  }

  lemma NotBlockedBelow(t: Tree, p: Path, k: Path)
    requires !Blocked(t, p) && k <= p && k != p && k in t
    ensures IsDir(t, k)
  {
    assert p[..|k|] == k;
  }

  /** A parent that was new goes with its child. */
  lemma BranchShrinks(t: Tree, p: Path)
    requires p != [] && Parent(p) !in t
    ensures Branch(t, p) - {Parent(p)} == Branch(t, Parent(p)) || p in t
    ensures Branch(t, p)[Parent(p)] == Dir({Last(p)})
  {
    var up := Parent(p);
    BranchAt(t, p, up);
    forall k
      ensures p !in t ==> (k in Branch(t, p) - {up} <==> k in Branch(t, up))
      ensures p !in t && k in Branch(t, up) ==> (Branch(t, p) - {up})[k] == Branch(t, up)[k]
    {
      BranchAt(t, p, k);
      BranchAt(t, up, k);
      assert k <= p ==> k <= up || k == p;
    }
  }

  /** Above a parent that was there before, growing changed nothing. */
  lemma GrowingAddsNothingAbove(t: Tree, p: Path, k: Path)
    requires Rooted(t) && p != [] && !Blocked(t, p) && Parent(p) in t && k <= Parent(p)
    ensures IsDir(t, k) && (k != Parent(p) ==> Dir(Listed(t, k) + {p[|k|]}) == t[k])
  {
    var up := Parent(p);
    assert up[..|k|] == k;
    PrefixesPresent(t, up, |k|);
    NotBlockedBelow(t, p, k);
    if k != up {
      assert t[k].children + {up[|k|]} == t[k].children;
    }
  }

  /** Away from a parent that was there before, growing changed nothing. */
  lemma BranchElsewhere(t: Tree, p: Path, k: Path)
    requires Rooted(t) && p != [] && p !in t && !Blocked(t, p) && Parent(p) in t && k != Parent(p)
    ensures k in Branch(t, p) <==> k in t
    ensures k in t ==> Branch(t, p)[k] == t[k]
  {
    BranchAt(t, p, k);
    BelowOneMore(k, Parent(p), Last(p));
    assert p == Parent(p) + [Last(p)];
    if k <= Parent(p) {
      GrowingAddsNothingAbove(t, p, k);
    }
  }

  /** A parent that was there before gets its old children back. */
  lemma BranchUnlists(t: Tree, p: Path)
    requires Tidy(t) && p != [] && p !in t && !Blocked(t, p) && Parent(p) in t
    ensures IsDir(t, Parent(p)) && Parent(p) in Branch(t, p)
    ensures Branch(t, p)[Parent(p)] == Dir(t[Parent(p)].children + {Last(p)})
    ensures Last(p) !in t[Parent(p)].children
    ensures Branch(t, p)[Parent(p) := t[Parent(p)]] == t
  {
    var up := Parent(p);
    assert up + [Last(p)] == p;
    GrowingAddsNothingAbove(t, p, up);
    BranchAt(t, p, up);
    forall k | k != up ensures (k in Branch(t, p) <==> k in t) && (k in t ==> Branch(t, p)[k] == t[k]) {
      BranchElsewhere(t, p, k);
    }
  }

  lemma NewOrdinaryOne(t: Tree, p: Path)
    requires Rooted(t) && p != [] && p !in t && Parent(p) in t
    ensures NewOrdinary(t, p) <==> Ordinary(Last(p))
  {
    assert p[..|p|] == p;
    forall i | 1 <= i < |p| ensures p[..i] in t {
      PrefixesPresent(t, Parent(p), i);
      assert Parent(p)[..i] == p[..i];
    }
  }

  lemma NewOrdinaryMore(t: Tree, p: Path)
    requires p != [] && p !in t
    ensures NewOrdinary(t, p) <==> Ordinary(Last(p)) && NewOrdinary(t, Parent(p))
  {
    assert p[..|p|] == p;
    assert forall i :: 0 <= i <= |Parent(p)| ==> Parent(p)[..i] == p[..i];
  }

  /** Pruning from a parent that was there before takes just the new name off its list. */
  lemma PruneOne(t: Tree, p: Path)
    requires Tidy(t) && p != [] && p !in t && !Blocked(t, p) && Parent(p) in t
    ensures Prune(Branch(t, p), p) == t <==> Ordinary(Last(p))
  {
    BranchUnlists(t, p);
    var up := Parent(p);
    var left := t[up].children + {Last(p)} - {Last(p)};
    assert left == t[up].children;
    if Ordinary(Last(p)) {
      assert up == [] || left != {};
    }
  }

  /** Pruning from a parent that was new takes the parent too, and goes on. */
  lemma PruneMore(t: Tree, p: Path)
    requires Rooted(t) && p != [] && p !in t && Parent(p) !in t
    ensures Prune(Branch(t, p), p) == if Ordinary(Last(p)) then Prune(Branch(t, Parent(p)), Parent(p)) else Branch(t, p)
    ensures Branch(t, p) != t
  {
    BranchShrinks(t, p);
    BranchAt(t, p, Parent(p));
    assert {Last(p)} - {Last(p)} == {};
  }

  /**
   * Pruning undoes growing exactly when every component below the deepest directory that was already
   * there is ordinary. In particular the walk stops precisely at that directory.
   */
  lemma {:induction false} PruneUndoesGrowing(t: Tree, p: Path)
    requires Tidy(t) && p != [] && p !in t && !Blocked(t, p)
    ensures Prune(Branch(t, p), p) == t <==> NewOrdinary(t, p)
    decreases |p|
  {
    if Parent(p) in t {
      PruneOne(t, p);
      NewOrdinaryOne(t, p);
    } else {
      PruneMore(t, p);
      UnblockedParent(t, p);
      PruneUndoesGrowing(t, Parent(p));
      NewOrdinaryMore(t, p);
    }
  }

  lemma UnblockedParent(t: Tree, p: Path)
    requires p != [] && !Blocked(t, p)
    ensures !Blocked(t, Parent(p))
  {
    forall i | 0 <= i < |p| - 1 ensures !IsFile(t, Parent(p)[..i]) {
      assert Parent(p)[..i] == p[..i];
    }
  }
}
