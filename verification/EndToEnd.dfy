/** Both daemons together: what the data daemon serves is what the policy daemon guards. */
module EndToEnd {
  import opened Mount
  import opened Hub
  import opened Identity
  import opened Replay
  import opened PolicyStore
  import Policy
  import Handler

  /** One operator request and the clock readings it takes. */
  datatype Turn = Turn(request: Handler.Request, t0: nat, t1: nat, t2: nat)

  /** The policy daemon's state and the control log after a run of requests. */
  datatype Daemon = Daemon(state: Policy.State, log: seq<Command>)

  ghost function Turned(d: Daemon, t: Turn, anonymize: Handler.Anonymizer): Daemon {
    Daemon(
      Handler.Handled(d.state, t.request, t.t0, t.t1, t.t2),
      d.log + Handler.Said(d.state, t.request, anonymize))
  }

  ghost function TurnedAll(d: Daemon, turns: seq<Turn>, anonymize: Handler.Anonymizer): Daemon {
    if turns == [] then d else Turned(TurnedAll(d, turns[..|turns| - 1], anonymize), turns[|turns| - 1], anonymize)
  }

  function Tags(salt: seq<Byte>, anonymize: Handler.Anonymizer): string -> string {
    name => anonymize(salt, name)
  }

  /** The secrets requests speak of lie in the name space. */
  ghost predicate NamesIn(turns: seq<Turn>, names: set<string>) {
    forall t :: t in turns && (t.request.AddSecret? || t.request.RemoveSecret?) ==> t.request.name in names
  }

  lemma SaltStays(d: Daemon, t: Turn, anonymize: Handler.Anonymizer)
    ensures Turned(d, t, anonymize).state.salt == d.state.salt
  {
  }

  lemma {:induction false} TurnsMirrored(d: Daemon, turns: seq<Turn>, names: set<string>, anonymize: Handler.Anonymizer)
    requires Handler.Mirrors(d.log, d.state, anonymize) && NamesIn(turns, names)
    requires AllSpeak(d.log, names, Tags(d.state.salt, anonymize))
    ensures
      var v := TurnedAll(d, turns, anonymize);
      && Handler.Mirrors(v.log, v.state, anonymize) && v.state.salt == d.state.salt
      && AllSpeak(v.log, names, Tags(d.state.salt, anonymize))
  {
    if turns != [] {
      var before, last := turns[..|turns| - 1], turns[|turns| - 1];
      TurnsMirrored(d, before, names, anonymize);
      var u := TurnedAll(d, before, anonymize);
      SaltStays(u, last, anonymize);
      Handler.CommandMirrored(u.log, u.state, last.request, anonymize, last.t0, last.t1, last.t2);
      assert last in turns;
    }
  }

  /**
   * After any run of operator requests, a data daemon that connects and is replayed the log serves exactly the
   * policy daemon's secrets, each under its anonymised name with the mode in its record. It does not matter what
   * parts of earlier talk it had heard before, or what was looked up through it meanwhile.
   */
  lemma DaemonsAgree(
    d: Daemon, turns: seq<Turn>, names: set<string>, anonymize: Handler.Anonymizer,
    held: seq<Act>, earlier: seq<Command>)
    requires Handler.Mirrors(d.log, d.state, anonymize) && NamesIn(turns, names)
    requires Apart(names, Tags(d.state.salt, anonymize)) && AllSpeak(d.log, names, Tags(d.state.salt, anonymize))
    requires Commands(held) == earlier + TurnedAll(d, turns, anonymize).log
    requires AllSpeak(earlier, names, Tags(d.state.salt, anonymize))
    requires forall c :: c in earlier ==> Mentions(TurnedAll(d, turns, anonymize).log, c.name)
    ensures Served(Ran(EMPTY, held)) == Handler.Serving(TurnedAll(d, turns, anonymize).state, anonymize)
  {
    var v := TurnedAll(d, turns, anonymize);
    TurnsMirrored(d, turns, names, anonymize);
    assert AllSpeak(earlier + v.log, names, Tags(d.state.salt, anonymize));
    StoreRefinesMap(held, names, Tags(d.state.salt, anonymize));
    LogAbsorbs(earlier, v.log);
  }

  /** `served` is some of `secrets`, each as it is there, and no two of them inside one another. */
  ghost predicate SomeOf(served: map<string, Entry>, secrets: map<string, Entry>) {
    Uncontested(served) && forall n :: n in served ==> n in secrets && served[n] == secrets[n]
  }

  lemma MindedIsSome(earlier: seq<Command>, log: seq<Command>, secrets: map<string, Entry>)
    requires forall c :: c in earlier ==> Mentions(log, c.name)
    requires Folded(log) == secrets
    ensures SomeOf(MindedAll(map[], earlier + log), secrets)
  {
    LogAbsorbs(earlier, log);
    MindedIsLess(earlier + log);
  }

  /**
   * In any canonical name space, names inside one another included, a data daemon serves what it has been told with
   * contested serves refused. So all it serves are secrets of the policy daemon, each under its own label and mode,
   * and of secrets inside one another at most one.
   */
  lemma DaemonsMind(
    d: Daemon, turns: seq<Turn>, names: set<string>, anonymize: Handler.Anonymizer,
    held: seq<Act>, earlier: seq<Command>)
    requires Handler.Mirrors(d.log, d.state, anonymize) && NamesIn(turns, names)
    requires NameSpace(names, Tags(d.state.salt, anonymize)) && AllSpeak(d.log, names, Tags(d.state.salt, anonymize))
    requires Commands(held) == earlier + TurnedAll(d, turns, anonymize).log
    requires AllSpeak(earlier, names, Tags(d.state.salt, anonymize))
    requires forall c :: c in earlier ==> Mentions(TurnedAll(d, turns, anonymize).log, c.name)
    ensures Served(Ran(EMPTY, held)) == MindedAll(map[], earlier + TurnedAll(d, turns, anonymize).log)
    ensures SomeOf(Served(Ran(EMPTY, held)), Handler.Serving(TurnedAll(d, turns, anonymize).state, anonymize))
  {
    var v := TurnedAll(d, turns, anonymize);
    TurnsMirrored(d, turns, names, anonymize);
    assert AllSpeak(earlier + v.log, names, Tags(d.state.salt, anonymize));
    StoreMindsMap(held, names, Tags(d.state.salt, anonymize));
    MindedIsSome(earlier, v.log, Handler.Serving(v.state, anonymize));
  }
}
