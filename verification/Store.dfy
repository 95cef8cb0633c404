/** The data daemon's store, changed in place by the commands it is sent. */
module Store {
  import opened Text
  import opened Paths
  import opened Tree
  import opened Mount
  import opened Hub

  class Store {
    var next: nat
    var tree: Tree
    var labels: Labels
    var idents: map<nat, FinoRecord>

    ghost function View(): State
      reads this
    {
      State(next, tree, labels, idents)
    }

    constructor ()
      ensures View() == EMPTY && WellFormed(View())
    {
      next, tree, labels, idents := ROOT_FINO, map[[] := Dir({})], Labels(map[], map[]), map[];
    }

    /** A fresh number for a path; numbers never repeat. */
    method MintFino(path: Path, identity: Option<Identity>) returns (fino: nat)
      modifies this`next, this`idents
      ensures fino == next
      ensures View() == Minted(old(View()), path, identity)
      ensures old(Numbered(View())) ==> fino !in old(idents) && Numbered(View())
    {
      next := next + 1;
      fino := next;
      idents := idents[fino := FinoRecord(identity, path)];
    }

    /** Go down one component: list it in the directory `at`, and make the next directory if nothing is there. */
    method StepInto(at: Path, comp: string) returns (refused: bool)
      requires IsDir(tree, at)
      modifies this`tree
      ensures refused <==> IsFile(old(tree), at + [comp])
      ensures tree == if refused then WithListed(old(tree), at, comp) else Stepped(old(tree), at, comp)
    {
      tree := tree[at := Dir(tree[at].children + {comp})];
      var next := at + [comp];
      assert next != at;
      if IsFile(tree, next) {
        return true;
      }
      if next !in tree {
        tree := tree[next := Dir({})];
      }
      return false;
    }

    /** Make every directory on the way to `path`, each listed in the one before, unless a file is in the way. */
    method MakeParents(path: Path) returns (refused: bool)
      requires Rooted(tree) && path != []
      modifies this`tree
      ensures refused <==> Blocked(old(tree), path)
      ensures refused ==> tree == old(tree)
      ensures !refused ==> tree == Reached(old(tree), Parent(path))
    {
      ghost var was := tree;
      var prefix: Path := [];
      GrownNoop(was, []);
      for i := 0 to |path| - 1
        invariant prefix == path[..i]
        invariant ClearTo(was, path, i)
        invariant tree == Reached(was, prefix)
      {
        StepFacts(was, path, i);
        refused := StepInto(prefix, path[i]);
        if refused {
          FileInTheWay(was, path, i);
          return;
        }
        StepReaches(was, path, i);
        prefix := prefix + [path[i]];
      }
      ClearIsUnblocked(was, path);
      return false;
    }

    /** Put the file at a path whose parents are in place: a known file keeps its number. */
    method PutFile(path: Path, mode: nat)
      requires path != [] && IsDir(tree, Parent(path)) && !IsDir(tree, path)
      modifies this`tree, this`next, this`idents
      ensures
        var node := NodeFor(old(View()), path, mode);
        && tree == Entered(old(tree), path, node)
        && next == (if IsFile(old(tree), path) then old(next) else old(next) + 1)
        && idents ==
           (if IsFile(old(tree), path) then old(idents) else old(idents)[old(next) + 1 := FinoRecord(None, path)])
    {
      if IsFile(tree, path) {
        tree := tree[path := tree[path].(mode := mode)];
      } else {
        var fino := MintFino(path, None);
        tree := tree[path := File(fino, mode)];
      }
      var up := Parent(path);
      tree := tree[up := Dir(tree[up].children + {Last(path)})];
    }

    /** Make the way to a path and put the file there, unless something is in the way or in its place. */
    method Place(path: Path, mode: nat) returns (refused: bool)
      requires Rooted(tree) && path != []
      modifies this`tree, this`next, this`idents
      ensures refused <==> Refused(old(tree), path)
      ensures View() == Placed(old(View()), path, mode)
    {
      ghost var was := View();
      refused := MakeParents(path);
      if refused {
        return;
      }
      PlaceFacts(was.tree, path);
      if IsDir(tree, path) {
        return true;
      }
      assert NodeFor(View(), path, mode) == NodeFor(was, path, mode);
      assert IsFile(tree, path) <==> IsFile(was.tree, path);
      PutFile(path, mode);
      PutIsPlaced(was, path, mode, View());
    }

    /** Relabel the name, unless the label is another's. */
    method Link(outer: string, tag: string)
      requires labels.Bijective()
      modifies this`labels
      ensures labels ==
        if old(labels).Taken(outer, tag) then old(labels) else old(labels).Without(outer).Pair(outer, tag)
    {
      if tag in labels.inner && labels.inner[tag] != outer {
        return;
      }
      labels := labels.Without(outer);
      labels := labels.Pair(outer, tag);
    }

    /**
     * A secret enters the tree. It is refused when a file is in its way or a directory in its place; a taken
     * label is refused after the file has been placed.
     */
    method Serve(name: string, tag: string, mode: nat)
      requires Sound(View())
      modifies this
      ensures View() == Mount.Serve(old(View()), name, tag, mode)
      ensures Sound(View())
      ensures old(WellFormed(View())) && Canonical(name) ==> WellFormed(View())
    {
      ServeKeeps(View(), name, tag, mode);
      var path := Components(name);
      if path == [] {
        return;
      }
      var refused := Place(path, mode);
      if !refused {
        Link(Join(path, "/"), tag);
      }
    }

    /** Walk up from a node that is gone, unlisting it and taking emptied directories with it. */
    method PruneUp(from: Path)
      modifies this`tree
      ensures tree == Prune(old(tree), from)
    {
      var path := from;
      while path != [] && Ordinary(Last(path))
        invariant Prune(tree, path) == Prune(old(tree), from)
        decreases |path|
      {
        var last := Last(path);
        path := Parent(path);
        if !IsDir(tree, path) {
          return;
        }
        var left := tree[path].children - {last};
        if left != {} || path == [] {
          tree := tree[path := Dir(left)];
          return;
        }
        tree := tree - {path};
      }
    }

    /** Remove a secret, and with it the directories it leaves empty. */
    method RemoveSecret(name: string)
      requires Sound(View())
      modifies this
      ensures View() == Mount.Remove(old(View()), name)
      ensures Sound(View())
      ensures old(WellFormed(View())) && Canonical(name) ==> WellFormed(View())
    {
      RemoveKeeps(View(), name);
      if WellFormed(View()) && Canonical(name) {
        RemoveCanonical(View(), name);
      }
      var path := Components(name);
      if !IsFile(tree, path) {
        return;
      }
      idents := idents - {tree[path].fino};
      tree := tree - {path};
      labels := labels.Without(name);
      PruneUp(path);
    }

    /** A host identity seen at a path: the same one keeps the number, another mints a new one. */
    method Observe(path: Path, identity: Identity) returns (fino: Option<nat>)
      requires Sound(View())
      modifies this
      ensures View() == Mount.Observe(old(View()), path, identity)
      ensures Sound(View())
      ensures fino.Some? <==> IsFile(old(tree), path)
      ensures fino.Some? ==>
        && IsFile(tree, path) && fino.value == tree[path].fino
        && idents[fino.value] == FinoRecord(Some(identity), path)
    {
      if !IsFile(tree, path) {
        return None;
      }
      var current := tree[path].fino;
      if idents[current].identity == Some(identity) {
        return Some(current);
      }
      var was := tree;
      var minted := MintFino(path, Some(identity));
      tree := tree[path := File(minted, was[path].mode)];
      assert View() == Mount.Observe(old(View()), path, identity);
      ObserveKeeps(old(View()), path, identity);
      return Some(minted);
    }

    /** One lookup in the flat view: a label names the file it was given to. */
    method Child(parent: nat, tag: string) returns (fino: Option<nat>)
      requires WellFormed(View())
      ensures fino.Some? <==> parent == ROOT_FINO && tag in labels.inner
      ensures fino.Some? ==>
        var path := Components(labels.inner[tag]);
        IsFile(tree, path) && fino.value == tree[path].fino && idents[fino.value].path == path
    {
      if parent != ROOT_FINO || tag !in labels.inner {
        return None;
      }
      var path := Components(labels.inner[tag]);
      assert labels.inner[tag] in labels.outer;
      if !IsFile(tree, path) {
        return None;
      }
      return Some(tree[path].fino);
    }

    /** Apply one control command. */
    method ApplyCommand(c: Command)
      requires Sound(View())
      modifies this
      ensures View() == Applied(old(View()), c)
      ensures Sound(View())
      ensures old(WellFormed(View())) && Canonical(c.name) ==> WellFormed(View())
    {
      match c
      case Serve(name, inner, mode) => Serve(name, inner, mode);
      case Withdraw(name) => RemoveSecret(name);
    }
  }

  ghost function Applied(s: State, c: Command): State {
    match c
    case Serve(name, inner, mode) => Mount.Serve(s, name, inner, mode)
    case Withdraw(name) => Mount.Remove(s, name)
  }

  /** The tree with every directory down to `p` in place. */
  ghost function Reached(t: Tree, p: Path): Tree {
    Grown(t, p, Dir(Listed(t, p)))
  }

  lemma StepFacts(t: Tree, path: Path, i: nat)
    requires i < |path|
    ensures path[..i + 1] == path[..i] + [path[i]]
    ensures path[..i] in Reached(t, path[..i]) && Reached(t, path[..i])[path[..i]] == Dir(Listed(t, path[..i]))
    ensures path[..i + 1] in Reached(t, path[..i]) <==> path[..i + 1] in t
    ensures path[..i + 1] in t ==> Reached(t, path[..i])[path[..i + 1]] == t[path[..i + 1]]
  {
    GrownAt(t, path[..i], Dir(Listed(t, path[..i])), path[..i]);
    GrownAt(t, path[..i], Dir(Listed(t, path[..i])), path[..i + 1]);
  }

  ghost function WithListed(t: Tree, at: Path, comp: string): Tree
    requires IsDir(t, at)
  {
    t[at := Dir(t[at].children + {comp})]
  }

  /** One component further down: listed, and a directory there if there was nothing. */
  ghost function Stepped(t: Tree, at: Path, comp: string): Tree
    requires IsDir(t, at)
  {
    var listed := WithListed(t, at, comp);
    if at + [comp] in t then listed else listed[at + [comp] := Dir({})]
  }

  /** The file itself, listed in its parent. */
  ghost function Entered(t: Tree, path: Path, node: Node): Tree
    requires path != [] && IsDir(t, Parent(path))
  {
    WithListed(t, Parent(path), Last(path))[path := node]
  }

  ghost predicate ClearTo(t: Tree, path: Path, i: nat)
    requires i <= |path|
  {
    forall j :: 0 <= j <= i ==> !IsFile(t, path[..j])
  }

  lemma ClearIsUnblocked(t: Tree, path: Path)
    requires path != [] && ClearTo(t, path, |path| - 1)
    ensures !Blocked(t, path) && path[..|path| - 1] == Parent(path)
  {
  }

  lemma StepReaches(t: Tree, path: Path, i: nat)
    requires i < |path| && !IsFile(t, path[..i + 1]) && ClearTo(t, path, i)
    requires IsDir(Reached(t, path[..i]), path[..i])
    ensures Stepped(Reached(t, path[..i]), path[..i], path[i]) == Reached(t, path[..i + 1])
    ensures ClearTo(t, path, i + 1)
  {
    var p, q := path[..i], path[..i + 1];
    StepFacts(t, path, i);
    GrownStep(t, p, path[i], Dir(Listed(t, q)));
    if q in t {
      var listed := WithListed(Reached(t, p), p, path[i]);
      assert p != q;
      assert listed[q := Dir(Listed(t, q))] == listed;
    }
  }

  /** Where a file stops the walk, everything before it was already there and listed. */
  lemma FileInTheWay(t: Tree, path: Path, i: nat)
    requires Rooted(t) && i < |path| - 1 && IsFile(t, path[..i + 1])
    requires IsDir(Reached(t, path[..i]), path[..i])
    ensures Blocked(t, path)
    ensures WithListed(Reached(t, path[..i]), path[..i], path[i]) == t
  {
    var p := path[..i];
    PrefixesPresent(t, path[..i + 1], i);
    assert path[..i + 1][..i] == p;
    GrownNoop(t, p);
    assert t[p].children + {path[i]} == t[p].children;
  }

  /** With the parents in place, the tree has at `path` what it had before. */
  lemma PlaceFacts(t: Tree, path: Path)
    requires Rooted(t) && path != []
    ensures IsDir(Reached(t, Parent(path)), Parent(path))
    ensures path in Reached(t, Parent(path)) <==> path in t
    ensures path in t ==> Reached(t, Parent(path))[path] == t[path]
    ensures path in t ==> Reached(t, Parent(path)) == t
  {
    StepFacts(t, path, |path| - 1);
    assert path[..|path|] == path;
    if path in t {
      GrownNoop(t, Parent(path));
    }
  }

  lemma EnteredIsGrown(t: Tree, path: Path, node: Node)
    requires path != [] && IsDir(Reached(t, Parent(path)), Parent(path))
    ensures Entered(Reached(t, Parent(path)), path, node) == Grown(t, path, node)
  {
    StepFacts(t, path, |path| - 1);
    assert path[..|path|] == path;
    GrownStep(t, Parent(path), Last(path), node);
  }

  lemma PutIsPlaced(s: State, path: Path, mode: nat, v: State)
    requires path != [] && !Refused(s.tree, path) && IsDir(Reached(s.tree, Parent(path)), Parent(path))
    requires v.tree == Entered(Reached(s.tree, Parent(path)), path, NodeFor(s, path, mode)) && v.labels == s.labels
    requires v.next == if IsFile(s.tree, path) then s.next else s.next + 1
    requires v.idents == if IsFile(s.tree, path) then s.idents else s.idents[s.next + 1 := FinoRecord(None, path)]
    ensures v == Placed(s, path, mode)
  {
    EnteredIsGrown(s.tree, path, NodeFor(s, path, mode));
  }

  lemma ObserveKeeps(s: State, path: Path, identity: Identity)
    requires Sound(s)
    ensures Sound(Mount.Observe(s, path, identity))
    ensures WellFormed(s) ==> WellFormed(Mount.Observe(s, path, identity))
  {
    var v := Mount.Observe(s, path, identity);
    if v != s {
      forall p ensures IsFile(v.tree, p) <==> IsFile(s.tree, p) {}
      forall p ensures IsDir(v.tree, p) <==> IsDir(s.tree, p) {}
      forall p | IsDir(s.tree, p) ensures v.tree[p] == s.tree[p] {}
    }
  }
}
