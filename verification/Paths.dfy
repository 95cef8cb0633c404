/** Secret names as the data daemon takes them apart: path components. */
module Paths {
  import opened Text

  type Path = seq<string>

  /** The root and the two dot components are special: they are no file's own name. */
  predicate Ordinary(c: string) {
    c != "/" && c != "." && c != ".."
  }

  function NonTrivial(pieces: seq<string>): seq<string> {
    if pieces == [] then []
    else (if pieces[0] == "" || pieces[0] == "." then [] else [pieces[0]]) + NonTrivial(pieces[1..])
  }

  /** A leading slash is a component of its own, a leading dot is kept, every other empty or dot piece is dropped. */
  function Components(name: string): Path {
    var pieces := Split(name);
    (if name != "" && name[0] == '/' then ["/"] else if pieces[0] == "." then ["."] else []) + NonTrivial(pieces)
  }

  function Last(p: Path): string
    requires p != []
  {
    p[|p| - 1]
  }

  function Parent(p: Path): Path
    requires p != []
  {
    p[..|p| - 1]
  }

  /** Names that read back as their own components, none of them special. */
  predicate Canonical(name: string) {
    var p := Components(name);
    p != [] && (forall c :: c in p ==> Ordinary(c)) && Join(p, "/") == name
  }

  lemma {:induction false} NonTrivialKeeps(pieces: seq<string>)
    requires forall c :: c in pieces ==> c != "" && c != "."
    ensures NonTrivial(pieces) == pieces
  {
    if pieces != [] {
      assert pieces[0] in pieces && forall c :: c in pieces[1..] ==> c in pieces;
      NonTrivialKeeps(pieces[1..]);
      assert pieces == [pieces[0]] + pieces[1..];
    }
  }

  lemma JoinStart(p: Path)
    requires p != [] && p[0] != "" && '/' !in p[0]
    ensures Join(p, "/") != "" && Join(p, "/")[0] != '/'
  {
    assert p[0][0] in p[0];
  }

  /** Joining ordinary components and taking the result apart again gives the components back. */
  lemma ComponentsOfJoin(p: Path)
    requires p != []
    requires forall c :: c in p ==> Ordinary(c) && c != "" && '/' !in c
    ensures Components(Join(p, "/")) == p
    ensures Canonical(Join(p, "/"))
  {
    assert p[0] in p;
    SplitJoin(p);
    JoinStart(p);
    NonTrivialKeeps(p);
  }

  lemma {:induction false} NonTrivialPieces(pieces: seq<string>)
    requires forall c :: c in pieces ==> '/' !in c
    ensures forall c :: c in NonTrivial(pieces) ==> c != "" && c != "." && '/' !in c
  {
    if pieces != [] {
      assert pieces[0] in pieces && forall c :: c in pieces[1..] ==> c in pieces;
      NonTrivialPieces(pieces[1..]);
    }
  }

  lemma SplitRest(rest: Path)
    requires forall c :: c in rest ==> c != "" && c != "." && '/' !in c
    ensures NonTrivial(Split(Join(rest, "/"))) == rest
  {
    if rest != [] {
      SplitJoin(rest);
      NonTrivialKeeps(rest);
    }
  }

  /** Taking a name apart and joining the components loses nothing that taking it apart again would show. */
  lemma ComponentsAgain(name: string)
    ensures Components(Join(Components(name), "/")) == Components(name)
  {
    var pieces := Split(name);
    var rest := NonTrivial(pieces);
    NonTrivialPieces(pieces);
    assert [] + rest == rest;
    if name != "" && name[0] == '/' {
      AbsoluteAgain(rest);
    } else if pieces[0] == "." {
      DottedAgain(rest);
    } else if rest != [] {
      PlainAgain(rest);
    }
  }

  lemma AbsoluteAgain(rest: Path)
    requires forall c :: c in rest ==> c != "" && c != "." && '/' !in c
    ensures Components(Join(["/"] + rest, "/")) == ["/"] + rest
  {
    SplitRest(rest);
    if rest != [] {
      var joined := Join(rest, "/");
      assert (["/"] + rest)[1..] == rest;
      assert Join(["/"] + rest, "/") == "/" + "/" + joined;
      SplitDropsEmpties(joined);
    }
  }

  lemma DottedAgain(rest: Path)
    requires forall c :: c in rest ==> c != "" && c != "." && '/' !in c
    ensures Components(Join(["."] + rest, "/")) == ["."] + rest
  {
    SplitRest(rest);
    if rest != [] {
      var joined := Join(rest, "/");
      assert (["."] + rest)[1..] == rest;
      SplitAtSlash(".", joined);
      assert Join(["."] + rest, "/") == "." + "/" + joined;
      assert ["."] + Split(joined) == Split("." + "/" + joined);
      assert (["."] + Split(joined))[1..] == Split(joined);
    } else {
      SplitPlain(".");
    }
  }

  lemma PlainAgain(rest: Path)
    requires rest != [] && forall c :: c in rest ==> c != "" && c != "." && '/' !in c
    ensures Components(Join(rest, "/")) == [] + rest
  {
    SplitRest(rest);
    SplitJoin(rest);
    assert rest[0] in rest;
    JoinStart(rest);
  }

  lemma SplitDropsEmpties(s: string)
    ensures NonTrivial(Split("/" + "/" + s)) == NonTrivial(Split(s))
  {
    assert ("/" + "/" + s)[1..] == "/" + s;
    assert ("/" + s)[1..] == s;
    assert Split("/" + s) == [""] + Split(s);
    assert Split("/" + "/" + s) == [""] + Split("/" + s);
    assert ([""] + Split(s))[1..] == Split(s);
    assert ([""] + Split("/" + s))[1..] == Split("/" + s);
  }

  lemma CanonicalPathsDiffer(a: string, b: string)
    requires Canonical(a) && Canonical(b)
    ensures Components(a) == Components(b) <==> a == b
  {
  }

  // ── prefixes ───────────────────────────────────────────────────

  function Prefixes(p: Path): set<Path> {
    set i | 0 <= i <= |p| :: p[..i]
  }

  lemma PrefixIn(k: Path, p: Path)
    ensures k in Prefixes(p) <==> k <= p
  {
    if k <= p {
      assert k == p[..|k|];
    }
  }

  lemma {:induction false} PrefixCount(p: Path)
    ensures |Prefixes(p)| == |p| + 1
  {
    if p == [] {
      assert p[..0] == p && Prefixes(p) == {p};
    } else {
      PrefixCount(Parent(p));
      forall k ensures k in Prefixes(p) <==> k in Prefixes(Parent(p)) || k == p {
        PrefixIn(k, p);
        PrefixIn(k, Parent(p));
      }
      PrefixIn(p, Parent(p));
      assert Prefixes(p) == Prefixes(Parent(p)) + {p};
    }
  }
}
