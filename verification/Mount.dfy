/** The data daemon's store as a value: the tree, its labels, and the inode numbers it has minted. */
module Mount {
  import opened Text
  import opened Paths
  import opened Tree

  const ROOT_FINO: nat := 1

  datatype Identity = Identity(kdev: nat, kino: nat)

  /** What a number was minted for. A secret served but never inspected has no identity. */
  datatype FinoRecord = FinoRecord(identity: Option<Identity>, path: Path)

  /** A one-to-one pairing, kept in both directions. */
  datatype Labels = Labels(outer: map<string, string>, inner: map<string, string>) {
    ghost predicate Bijective() {
      && (forall o :: o in outer ==> outer[o] in inner && inner[outer[o]] == o)
      && (forall i :: i in inner ==> inner[i] in outer && outer[inner[i]] == i)
    }

    function Without(o: string): Labels {
      if o in outer then Labels(outer - {o}, inner - {outer[o]}) else this
    }

    /** Pair `o` with `i`, dropping any pairing either had. */
    function Pair(o: string, i: string): Labels {
      var clear := if i in inner then Without(o).Without(inner[i]) else Without(o);
      Labels(clear.outer[o := i], clear.inner[i := o])
    }

    /** Another name already goes under this label. */
    predicate Taken(o: string, i: string) {
      i in inner && inner[i] != o
    }
  }

  datatype State = State(next: nat, tree: Tree, labels: Labels, idents: map<nat, FinoRecord>)

  const EMPTY := State(ROOT_FINO, map[[] := Dir({})], Labels(map[], map[]), map[])

  // ── operations ─────────────────────────────────────────────────

  function Minted(s: State, path: Path, identity: Option<Identity>): State {
    s.(next := s.next + 1, idents := s.idents[s.next + 1 := FinoRecord(identity, path)])
  }

  /** A name is refused when it has no components, a file sits on its way, or a directory sits in its place. */
  ghost predicate Refused(t: Tree, path: Path) {
    path == [] || Blocked(t, path) || IsDir(t, path)
  }

  /** Structure and mode; a file already there keeps its number. */
  ghost function Placed(s: State, path: Path, mode: nat): State {
    if Refused(s.tree, path) then s
    else if IsFile(s.tree, path) then s.(tree := Grown(s.tree, path, s.tree[path].(mode := mode)))
    else Minted(s, path, None).(tree := Grown(s.tree, path, File(s.next + 1, mode)))
  }

  /** A label already taken by another name is refused, and only the label. */
  ghost function Serve(s: State, name: string, tag: string, mode: nat): State {
    ServeAt(s, Components(name), tag, mode)
  }

  ghost function ServeAt(s: State, path: Path, tag: string, mode: nat): State {
    var outer := Join(path, "/");
    var placed := Placed(s, path, mode);
    if Refused(s.tree, path) || s.labels.Taken(outer, tag) then placed
    else placed.(labels := s.labels.Without(outer).Pair(outer, tag))
  }

  /** The node, its current number and the raw name's label go, and with them the directories left empty. */
  function Remove(s: State, name: string): State {
    var path := Components(name);
    if !IsFile(s.tree, path) then s
    else s.(
      tree := Prune(s.tree - {path}, path),
      idents := s.idents - {s.tree[path].fino},
      labels := s.labels.Without(name))
  }

  /** A host identity seen at a path: the same one keeps the number, another mints a new one. */
  function Observe(s: State, path: Path, identity: Identity): State {
    if !IsFile(s.tree, path) || s.tree[path].fino !in s.idents then s
    else if s.idents[s.tree[path].fino].identity == Some(identity) then s
    else Minted(s, path, Some(identity)).(tree := s.tree[path := s.tree[path].(fino := s.next + 1)])
  }

  // ── invariants ─────────────────────────────────────────────────

  /** Every file's number is recorded under that file's own path, and no number exceeds the counter. */
  ghost predicate Numbered(s: State) {
    && (forall p :: IsFile(s.tree, p) ==> s.tree[p].fino in s.idents && s.idents[s.tree[p].fino].path == p)
    && (forall f :: f in s.idents ==> ROOT_FINO < f <= s.next)
    && ROOT_FINO <= s.next
  }

  /** What holds whatever names are served and removed: no serve can find a parent that is no directory. */
  ghost predicate Sound(s: State) {
    Rooted(s.tree) && s.labels.Bijective() && Numbered(s)
  }

  /** Every label belongs to a served file, under its own name. */
  ghost predicate LabelsServed(s: State) {
    forall o :: o in s.labels.outer ==> Canonical(o) && IsFile(s.tree, Components(o))
  }

  /** Every served file has a label. */
  ghost predicate FilesLabelled(s: State) {
    forall p :: IsFile(s.tree, p) ==> Join(p, "/") in s.labels.outer
  }

  /** Every served file sits at the components of a canonical name. */
  ghost predicate FilesNamed(s: State) {
    forall p :: IsFile(s.tree, p) ==> Canonical(Join(p, "/")) && Components(Join(p, "/")) == p
  }

  /** What holds as long as names are canonical. */
  ghost predicate WellFormed(s: State) {
    Sound(s) && Tidy(s.tree) && LabelsServed(s) && FilesNamed(s)
  }

  lemma NumbersDistinct(s: State, p: Path, q: Path)
    requires Numbered(s) && IsFile(s.tree, p) && IsFile(s.tree, q)
    ensures s.tree[p].fino == s.tree[q].fino ==> p == q
  {
    assert s.idents[s.tree[p].fino].path == p && s.idents[s.tree[q].fino].path == q;
  }

  lemma PairBijective(l: Labels, o: string, i: string)
    requires l.Bijective() && !l.Taken(o, i)
    ensures l.Without(o).Pair(o, i).Bijective()
    ensures l.Without(o).Pair(o, i).outer == l.outer[o := i]
  {
  }

  lemma WithoutBijective(l: Labels, o: string)
    requires l.Bijective()
    ensures l.Without(o).Bijective() && l.Without(o).outer == l.outer - {o}
  {
  }

  // ── serving ────────────────────────────────────────────────────

  /** The node a serve puts in place: a known file keeps its number. */
  ghost function NodeFor(s: State, path: Path, mode: nat): Node {
    if IsFile(s.tree, path) then s.tree[path].(mode := mode) else File(s.next + 1, mode)
  }

  lemma PlacedTree(s: State, path: Path, mode: nat)
    requires !Refused(s.tree, path)
    ensures Placed(s, path, mode).tree == Grown(s.tree, path, NodeFor(s, path, mode))
  {
  }

  lemma PlacedRooted(s: State, path: Path, mode: nat)
    requires Rooted(s.tree)
    ensures Rooted(Placed(s, path, mode).tree)
    ensures Exact(s.tree) ==> Exact(Placed(s, path, mode).tree)
  {
    if !Refused(s.tree, path) {
      PlacedTree(s, path, mode);
      GrownRooted(s.tree, path, NodeFor(s, path, mode));
      if Exact(s.tree) {
        GrownExact(s.tree, path, NodeFor(s, path, mode));
      }
    }
  }

  lemma PlacedNumbered(s: State, path: Path, mode: nat)
    requires Numbered(s)
    ensures Numbered(Placed(s, path, mode))
  {
    if !Refused(s.tree, path) {
      var v := Placed(s, path, mode);
      PlacedTree(s, path, mode);
      forall p | IsFile(v.tree, p) ensures v.tree[p].fino in v.idents && v.idents[v.tree[p].fino].path == p {
        GrownAt(s.tree, path, NodeFor(s, path, mode), p);
      }
    }
  }

  lemma PlacedFiles(s: State, path: Path, mode: nat, p: Path)
    requires !Refused(s.tree, path)
    ensures IsFile(Placed(s, path, mode).tree, p) <==> IsFile(s.tree, p) || p == path
    ensures IsFile(Placed(s, path, mode).tree, p) ==>
      Placed(s, path, mode).tree[p].mode == if p == path then mode else s.tree[p].mode
  {
    PlacedTree(s, path, mode);
    GrownAt(s.tree, path, NodeFor(s, path, mode), p);
    if p <= path && p != path {
      assert path[..|p|] == p;
    }
  }

  /** Serving any name keeps the store sound; serving a canonical one keeps it well formed. */
  lemma ServeKeeps(s: State, name: string, tag: string, mode: nat)
    requires Sound(s)
    ensures Sound(Serve(s, name, tag, mode))
    ensures WellFormed(s) && Canonical(name) ==> WellFormed(Serve(s, name, tag, mode))
  {
    var path := Components(name);
    var outer := Join(path, "/");
    PlacedRooted(s, path, mode);
    PlacedNumbered(s, path, mode);
    if !Refused(s.tree, path) {
      if !s.labels.Taken(outer, tag) {
        PairBijective(s.labels, outer, tag);
      }
      if WellFormed(s) && Canonical(name) {
        var v := Serve(s, name, tag, mode);
        forall o | o in v.labels.outer ensures Canonical(o) && IsFile(v.tree, Components(o)) {
          PlacedFiles(s, path, mode, Components(o));
        }
        forall p | IsFile(v.tree, p) ensures Canonical(Join(p, "/")) && Components(Join(p, "/")) == p {
          PlacedFiles(s, path, mode, p);
        }
      }
    }
  }

  /** A new file ends up without a label exactly when its label was taken; nothing else loses one. */
  lemma ServeLabelsFiles(s: State, name: string, tag: string, mode: nat)
    requires WellFormed(s) && FilesLabelled(s) && Canonical(name)
    ensures
      FilesLabelled(Serve(s, name, tag, mode)) <==>
      !(s.labels.Taken(name, tag) && !Refused(s.tree, Components(name)) && !IsFile(s.tree, Components(name)))
  {
    var path := Components(name);
    var v := Serve(s, name, tag, mode);
    assert Join(path, "/") == name;
    if !Refused(s.tree, path) {
      if !s.labels.Taken(name, tag) {
        PairBijective(s.labels, name, tag);
      }
      forall p ensures IsFile(v.tree, p) <==> IsFile(s.tree, p) || p == path {
        PlacedFiles(s, path, mode, p);
      }
      if s.labels.Taken(name, tag) && !IsFile(s.tree, path) {
        assert name !in s.labels.outer;
        assert IsFile(v.tree, path);
      }
    }
  }

  // ── removing ───────────────────────────────────────────────────

  lemma {:induction false} PruneKeepsFiles(t: Tree, p: Path, q: Path)
    ensures IsFile(Prune(t, p), q) <==> IsFile(t, q)
    ensures IsFile(t, q) ==> Prune(t, p)[q] == t[q]
    decreases |p|
  {
    if p != [] && Ordinary(Last(p)) && IsDir(t, Parent(p)) {
      if t[Parent(p)].children - {Last(p)} == {} && Parent(p) != [] {
        PruneKeepsFiles(t - {Parent(p)}, Parent(p), q);
      }
    }
  }

  lemma FileGone(t: Tree, p: Path)
    requires Rooted(t) && IsFile(t, p)
    ensures p != [] && Rooted(t - {p})
    ensures Exact(t) ==> TidyBut(t - {p}, p)
  {
    forall q | q in t && p <= q ensures q == p {
      NothingBelow(t, p, q);
    }
    RemoveLeafRooted(t, p);
    if Exact(t) {
      var v := t - {p};
      assert IsDir(t, Parent(p)) && Last(p) in t[Parent(p)].children;
      forall k, c | IsDir(v, k) && c in v[k].children ensures k + [c] in v || k + [c] == p {
        assert IsDir(t, k) && c in t[k].children;
      }
    }
  }

  /** Removing any name keeps the store sound. A tidy tree stays tidy exactly when the walk up is not cut short. */
  lemma RemoveKeeps(s: State, name: string)
    requires Sound(s)
    ensures Sound(Remove(s, name))
    ensures Tidy(s.tree) ==>
      (Tidy(Remove(s, name).tree) <==>
       !IsFile(s.tree, Components(name)) || Walks(s.tree - {Components(name)}, Components(name)))
  {
    var path := Components(name);
    if IsFile(s.tree, path) {
      FileGone(s.tree, path);
      PruneRooted(s.tree - {path}, path);
      WithoutBijective(s.labels, name);
      if Tidy(s.tree) {
        PruneTidy(s.tree - {path}, path);
      }
      RemoveNumbered(s, name);
    }
  }

  lemma RemoveNumbered(s: State, name: string)
    requires Numbered(s) && IsFile(s.tree, Components(name))
    ensures Numbered(Remove(s, name))
  {
    var path := Components(name);
    var v := Remove(s, name);
    forall p | IsFile(v.tree, p) ensures v.tree[p].fino in v.idents && v.idents[v.tree[p].fino].path == p {
      PruneKeepsFiles(s.tree - {path}, path, p);
      NumbersDistinct(s, p, path);
    }
  }

  lemma RemoveFiles(s: State, name: string, p: Path)
    ensures IsFile(Remove(s, name).tree, p) <==> IsFile(s.tree, p) && p != Components(name)
    ensures IsFile(Remove(s, name).tree, p) ==> Remove(s, name).tree[p] == s.tree[p]
  {
    var path := Components(name);
    if IsFile(s.tree, path) {
      PruneKeepsFiles(s.tree - {path}, path, p);
    }
  }

  lemma RemoveLabels(s: State, name: string)
    requires s.labels.Bijective() && LabelsServed(s) && Canonical(name)
    ensures Remove(s, name).labels.outer == s.labels.outer - {name}
  {
    if IsFile(s.tree, Components(name)) {
      WithoutBijective(s.labels, name);
    } else {
      assert name !in s.labels.outer;
    }
  }

  /** Removing a canonical name keeps the store well formed. */
  lemma RemoveCanonical(s: State, name: string)
    requires WellFormed(s) && Canonical(name)
    ensures WellFormed(Remove(s, name))
    ensures FilesLabelled(s) ==> FilesLabelled(Remove(s, name))
  {
    var path := Components(name);
    var v := Remove(s, name);
    RemoveKeeps(s, name);
    RemoveLabels(s, name);
    if IsFile(s.tree, path) {
      OrdinaryWalks(s.tree - {path}, path);
    }
    forall p ensures IsFile(v.tree, p) <==> IsFile(s.tree, p) && p != path {
      RemoveFiles(s, name, p);
    }
    forall o | o in v.labels.outer ensures IsFile(v.tree, Components(o)) {
      CanonicalPathsDiffer(o, name);
    }
  }

  // ── serving, then removing ─────────────────────────────────────

  lemma GrownMinus(t: Tree, path: Path, node: Node)
    ensures Grown(t, path, node) - {path} == Branch(t, path)
  {
    forall k
      ensures k in Grown(t, path, node) - {path} <==> k in Branch(t, path)
      ensures k in Branch(t, path) ==> (Grown(t, path, node) - {path})[k] == Branch(t, path)[k]
    {
      GrownAt(t, path, node, k);
      BranchAt(t, path, k);
    }
  }

  lemma ServedNew(s: State, path: Path, tag: string, mode: nat)
    requires !Refused(s.tree, path) && !IsFile(s.tree, path)
    ensures
      var served := ServeAt(s, path, tag, mode);
      && served.tree == Grown(s.tree, path, File(s.next + 1, mode))
      && served.idents == s.idents[s.next + 1 := FinoRecord(None, path)]
  {
  }

  lemma GrownHasFile(t: Tree, path: Path, fino: nat, mode: nat)
    ensures IsFile(Grown(t, path, File(fino, mode)), path) && Grown(t, path, File(fino, mode))[path].fino == fino
  {
    GrownAt(t, path, File(fino, mode), path);
  }

  lemma MapUndo(idents: map<nat, FinoRecord>, f: nat, r: FinoRecord)
    requires f !in idents
    ensures idents[f := r] - {f} == idents
  {
  }

  /** What removing a just served new file leaves. */
  lemma RemoveAfterServe(s: State, name: string, tag: string, mode: nat)
    requires !Refused(s.tree, Components(name)) && !IsFile(s.tree, Components(name))
    requires s.next + 1 !in s.idents
    ensures
      var path := Components(name);
      var served := Serve(s, name, tag, mode);
      var v := Remove(served, name);
      v.tree == Prune(Branch(s.tree, path), path) && v.idents == s.idents && v.labels == served.labels.Without(name)
  {
    var path := Components(name);
    ServedNew(s, path, tag, mode);
    GrownHasFile(s.tree, path, s.next + 1, mode);
    GrownMinus(s.tree, path, File(s.next + 1, mode));
    MapUndo(s.idents, s.next + 1, FinoRecord(None, path));
  }

  /** A label filed under the name itself goes with it; one filed under another spelling stays. */
  lemma LabelAfterServe(l: Labels, outer: string, name: string, tag: string)
    requires l.Bijective() && outer !in l.outer && name !in l.outer && !l.Taken(outer, tag)
    ensures l.Without(outer).Pair(outer, tag).Without(name) == l <==> outer == name
  {
    assert tag !in l.inner;
    if outer == name {
      assert l.outer[outer := tag] - {name} == l.outer;
      assert l.inner[tag := outer] - {tag} == l.inner;
    }
  }

  /** A name that is no served file has no label, under any spelling. */
  lemma Unlabelled(s: State, name: string)
    requires LabelsServed(s) && !IsFile(s.tree, Components(name))
    ensures name !in s.labels.outer && Join(Components(name), "/") !in s.labels.outer
  {
    ComponentsAgain(name);
  }

  /**
   * For a well-formed store and any name, canonical or not, that is no served file: removing it right after
   * serving it restores tree, labels and identities exactly when it was refused, or every component that had
   * to be created is ordinary and the label, if one was given, was filed under the name itself.
   */
  lemma RemoveUndoesServe(s: State, name: string, tag: string, mode: nat)
    requires WellFormed(s) && !IsFile(s.tree, Components(name))
    ensures
      var path := Components(name);
      var v := Remove(Serve(s, name, tag, mode), name);
      (v.tree == s.tree && v.labels == s.labels && v.idents == s.idents) <==>
      Refused(s.tree, path) ||
      (NewOrdinary(s.tree, path) && (s.labels.Taken(Join(path, "/"), tag) || Join(path, "/") == name))
  {
    var path := Components(name);
    var outer := Join(path, "/");
    Unlabelled(s, name);
    if !Refused(s.tree, path) {
      RemoveAfterServe(s, name, tag, mode);
      PruneUndoesGrowing(s.tree, path);
      if !s.labels.Taken(outer, tag) {
        LabelAfterServe(s.labels, outer, name, tag);
      } else {
        assert s.labels.Without(name) == s.labels;
      }
    }
  }

  /** For canonical names that is always. */
  lemma RemoveUndoesCanonicalServe(s: State, name: string, tag: string, mode: nat)
    requires WellFormed(s) && Canonical(name) && !IsFile(s.tree, Components(name))
    ensures
      var v := Remove(Serve(s, name, tag, mode), name);
      v.tree == s.tree && v.labels == s.labels && v.idents == s.idents
  {
    var path := Components(name);
    assert forall i :: 0 <= i < |path| ==> path[i] in path;
    RemoveUndoesServe(s, name, tag, mode);
  }

  // ── seeing a host file ─────────────────────────────────────────

  /**
   * Once seen, the path's number stands for what was seen there. It is the number from before exactly when it stood
   * for the same file then; otherwise it is a number nothing had, and the old one is kept on record. The file's mode,
   * all labels and all other nodes stay.
   */
  lemma SeenIsRecorded(s: State, path: Path, identity: Identity)
    requires Sound(s) && IsFile(s.tree, path)
    ensures
      var v := Observe(s, path, identity);
      && IsFile(v.tree, path) && v.tree[path].mode == s.tree[path].mode
      && v.tree[path].fino in v.idents && v.idents[v.tree[path].fino] == FinoRecord(Some(identity), path)
      && (v.tree[path].fino == s.tree[path].fino <==> s.idents[s.tree[path].fino].identity == Some(identity))
      && (v.tree[path].fino != s.tree[path].fino ==> v.tree[path].fino !in s.idents)
      && (forall f :: f in s.idents ==> f in v.idents && v.idents[f] == s.idents[f])
      && |v.idents| <= |s.idents| + 1 && v.labels == s.labels
      && v.tree.Keys == s.tree.Keys && forall p :: p in s.tree && p != path ==> v.tree[p] == s.tree[p]
    ensures Observe(Observe(s, path, identity), path, identity) == Observe(s, path, identity)
  {
  }

  // ── names that leave something behind ──────────────────────────

  predicate Plain(c: string) {
    c != "" && Ordinary(c) && '/' !in c
  }

  lemma DoubledSlash(a: string, b: string)
    requires Plain(a) && Plain(b)
    ensures Components(a + "/" + "/" + b) == [a, b]
  {
    var name, pieces := a + "/" + "/" + b, [a, "", b];
    assert name == a + "/" + ("/" + b) && name[0] == a[0];
    SplitAtSlash(a, "/" + b);
    assert Split("/" + b) == ["", b] by {
      assert ("/" + b)[1..] == b;
      SplitPlain(b);
    }
    assert Split(name) == pieces;
    assert pieces[1..] == ["", b] && ["", b][1..] == [b];
    NonTrivialKeeps([b]);
    assert NonTrivial(["", b]) == [b];
    assert NonTrivial(pieces) == [a, b];
  }

  lemma BelowDots(a: string)
    requires Plain(a)
    ensures Components(a + "/" + "..") == [a, ".."]
  {
    var name := a + "/" + "..";
    assert name[0] == a[0];
    SplitAtSlash(a, "..");
    SplitPlain("..");
    assert Split(name) == [a, ".."];
    NonTrivialKeeps([a, ".."]);
  }

  lemma NothingBlocks(p: Path)
    requires p != []
    ensures !Refused(EMPTY.tree, p) && !IsFile(EMPTY.tree, p)
  {
  }

  /** A label filed under another spelling than the name that is removed stays. */
  lemma RespelledKeepsLabel(name: string, tag: string, mode: nat)
    requires Components(name) != [] && Join(Components(name), "/") != name
    ensures Remove(Serve(EMPTY, name, tag, mode), name).labels.outer == map[Join(Components(name), "/") := tag]
  {
    NothingBlocks(Components(name));
    RemoveAfterServe(EMPTY, name, tag, mode);
    EmptyLabelled(Components(name), tag, mode);
  }

  lemma EmptyLabelled(path: Path, tag: string, mode: nat)
    requires path != []
    ensures ServeAt(EMPTY, path, tag, mode).labels.outer == map[Join(path, "/") := tag]
  {
    NothingBlocks(path);
  }

  /** A name spelled with a doubled slash is filed under its plain spelling, and removing it leaves that label. */
  lemma DoubledSlashKeepsLabel(a: string, b: string, tag: string, mode: nat)
    requires Plain(a) && Plain(b)
    ensures
      var name := a + "/" + "/" + b;
      Remove(Serve(EMPTY, name, tag, mode), name).labels.outer == map[Join([a, b], "/") := tag]
  {
    DoubledSlash(a, b);
    assert [a, b][1..] == [b];
    assert |Join([a, b], "/")| == |a| + 1 + |b|;
    RespelledKeepsLabel(a + "/" + "/" + b, tag, mode);
  }

  /** Where a new component is special, the walk up stops short of restoring the tree. */
  lemma SpecialStays(t: Tree, path: Path)
    requires Tidy(t) && !Refused(t, path) && !IsFile(t, path) && !Ordinary(Last(path))
    ensures Prune(Branch(t, path), path) != t
  {
    PruneUndoesGrowing(t, path);
    assert path[..|path|] == path && path !in t;
  }

  lemma EmptyIsTidy()
    ensures Tidy(EMPTY.tree) && EMPTY.next + 1 !in EMPTY.idents
  {
  }

  /** A last component of two dots stops the walk up, and removing the name leaves directories behind. */
  lemma DotsKeepDirectories(a: string, tag: string, mode: nat)
    requires Plain(a)
    ensures
      var name := a + "/" + "..";
      Remove(Serve(EMPTY, name, tag, mode), name).tree != EMPTY.tree
  {
    var name := a + "/" + "..";
    BelowDots(a);
    NothingBlocks([a, ".."]);
    EmptyIsTidy();
    SpecialStays(EMPTY.tree, [a, ".."]);
    RemoveAfterServe(EMPTY, name, tag, mode);
  }
}
