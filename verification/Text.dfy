/** Shared vocabulary: optional values and slash-separated text. */
module Text {

  datatype Option<+T> = None | Some(value: T)

  /** The parts of a list joined by a separator; the empty list is the empty string. */
  function Join(parts: seq<string>, sep: string): string {
    if parts == [] then ""
    else if |parts| == 1 then parts[0]
    else parts[0] + sep + Join(parts[1..], sep)
  }

  /** Two lists joined are their joins with one separator between; one part is itself. */
  lemma {:induction false} JoinAppend(a: seq<string>, b: seq<string>, sep: string)
    requires a != [] && b != []
    ensures Join(a + b, sep) == Join(a, sep) + sep + Join(b, sep)
    ensures |a| == 1 ==> Join(a, sep) == a[0]
  {
    if |a| == 1 {
      assert (a + b)[1..] == b;
    } else {
      assert (a + b)[1..] == a[1..] + b;
      JoinAppend(a[1..], b, sep);
    }
  }

  /** The pieces between slashes. There is always at least one, possibly empty. */
  function Split(s: string): (parts: seq<string>)
    ensures |parts| >= 1
    ensures forall p :: p in parts ==> '/' !in p
  {
    if s == "" then [""]
    else if s[0] == '/' then [""] + Split(s[1..])
    else
      var rest := Split(s[1..]);
      [[s[0]] + rest[0]] + rest[1..]
  }

  lemma {:induction false} SplitAtSlash(a: string, rest: string)
    requires '/' !in a
    ensures Split(a + "/" + rest) == [a] + Split(rest)
  {
    var s := a + "/" + rest;
    if a == "" {
      assert s[1..] == rest;
    } else {
      assert s[1..] == a[1..] + "/" + rest;
      SplitAtSlash(a[1..], rest);
      assert [a[0]] + a[1..] == a;
    }
  }

  lemma {:induction false} SplitPlain(a: string)
    requires '/' !in a
    ensures Split(a) == [a]
  {
    if a != "" {
      SplitPlain(a[1..]);
      assert [a[0]] + a[1..] == a;
    }
  }

  /** Splitting undoes joining on every non-empty list of slash-free parts. */
  lemma {:induction false} SplitJoin(parts: seq<string>)
    requires parts != []
    requires forall p :: p in parts ==> '/' !in p
    ensures Split(Join(parts, "/")) == parts
  {
    if |parts| == 1 {
      SplitPlain(parts[0]);
    } else {
      SplitAtSlash(parts[0], Join(parts[1..], "/"));
      SplitJoin(parts[1..]);
      assert [parts[0]] + parts[1..] == parts;
    }
  }

  /** Two non-empty lists of slash-free parts that read the same are the same list. */
  lemma JoinInjective(a: seq<string>, b: seq<string>)
    requires a != [] && b != []
    requires forall p :: p in a ==> '/' !in p
    requires forall p :: p in b ==> '/' !in p
    ensures Join(a, "/") == Join(b, "/") ==> a == b
  {
    SplitJoin(a);
    SplitJoin(b);
  }
}
