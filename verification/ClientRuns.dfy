/** Whole runs of the calls that a table of clients gets, and how long it remembers the ids it has let in. */
module ClientRuns {
  import opened ClientTable
  import opened OrderedDictionary
  import opened ReplayWindow

  /** A client asks for a connection, sends data, or ends a connection. */
  datatype Event = Inserts(c: int, id: int, now: real) | Updates(c: int, now: real) | Removes(c: int)

  function After(rule: Rule, max: int, o: Table, e: Event): Table {
    match e
    case Inserts(c, id, now) => Inserted(rule, o, max, c, id, now).1
    case Updates(c, now) => Updated(o, c, now)
    case Removes(c) => Removed(o, c)
  }

  function Run(rule: Rule, max: int, o: Table, events: seq<Event>): Table
    decreases |events|
  {
    if events == [] then o else Run(rule, max, After(rule, max, o, events[0]), events[1..])
  }

  /** The client is there, and its window has let the id in. */
  predicate Remembers(o: Table, c: int, id: int) {
    c in o.vals && id in o.vals[c].epoch.ids
  }

  /** The event leaves the client its window: when it asks itself it must be active, and when a new client finds the
      table full and the first client idle, it must not be the one that goes. */
  predicate Keeps(rule: Rule, max: int, o: Table, e: Event, c: int) {
    match e
    case Inserts(d, _, now) =>
      if d == c then c in o.vals && Active(rule, o.vals[c], now)
      else d in o.vals || !Full(o, max) || !Evicts(rule, o, now) || Evicted(o) != c
    case _ => true
  }

  predicate KeepsAll(rule: Rule, max: int, o: Table, events: seq<Event>, c: int)
    decreases |events|
  {
    events != [] ==>
      Keeps(rule, max, o, events[0], c) && KeepsAll(rule, max, After(rule, max, o, events[0]), events[1..], c)
  }

  predicate Asks(e: Event, c: int, id: int) {
    e.Inserts? && e.c == c && e.id == id
  }

  lemma AfterGood(rule: Rule, max: int, o: Table, e: Event)
    requires Good(o)
    ensures Good(After(rule, max, o, e))
    ensures e.Updates? && e.c in o.vals ==> After(rule, max, o, e).vals == o.vals[e.c := o.vals[e.c].(last := e.now)]
    ensures e.Removes? && e.c in o.vals ==> After(rule, max, o, e).vals == o.vals[e.c := Released(o.vals[e.c])]
    ensures !e.Inserts? && e.c !in o.vals ==> After(rule, max, o, e) == o
  {
    match e {
      case Inserts(c, id, now) => InsertedClients(rule, o, max, c, id, now);
      case Updates(c, now) =>
        if c in o.vals {
          StoredGood(o, c, o.vals[c].(last := now));
        }
      case Removes(c) =>
        if c in o.vals {
          StoredGood(o, c, Released(o.vals[c]));
        }
    }
  }

  /** Exactly the events that leave the client its window leave the id remembered, unless it is let in again. */
  lemma RememberedAfter(rule: Rule, max: int, o: Table, e: Event, c: int, id: int)
    requires Good(o) && Remembers(o, c, id)
    ensures Remembers(After(rule, max, o, e), c, id) <==> Keeps(rule, max, o, e, c) || Asks(e, c, id)
  {
    assert o.vals[c].enable;
    hide Inserted, Good, Updated, Removed, Accepts, Evicts, Active;
    AfterGood(rule, max, o, e);
    if e.Inserts? {
      InsertedClients(rule, o, max, e.c, e.id, e.now);
      if e.c == c {
        OwnInsert(rule, o.vals[c], e.id, e.now, id);
      }
    }
  }

  /** The client's own request: an idle window starts anew, an active one stays. */
  lemma OwnInsert(rule: Rule, q: Queue, id: int, now: real, old': int)
    requires q.enable && old' in q.epoch.ids
    ensures old' in QueueInsert(rule, q, id, now).1.epoch.ids <==> Active(rule, q, now) || id == old'
  {
    FreshAccepts(id);
  }

  /** What has been forgotten comes back only with a new request. */
  lemma ForgottenAfter(rule: Rule, max: int, o: Table, e: Event, c: int, id: int)
    requires Good(o) && !Remembers(o, c, id) && !Asks(e, c, id)
    ensures !Remembers(After(rule, max, o, e), c, id)
  {
    hide Inserted, Good, Updated, Removed, Accepts, Evicts, Active;
    AfterGood(rule, max, o, e);
    if e.Inserts? {
      InsertedClients(rule, o, max, e.c, e.id, e.now);
    }
  }

  lemma {:induction false} RunGood(rule: Rule, max: int, o: Table, events: seq<Event>)
    requires Good(o)
    ensures Good(Run(rule, max, o, events))
    decreases |events|
  {
    if events != [] {
      AfterGood(rule, max, o, events[0]);
      RunGood(rule, max, After(rule, max, o, events[0]), events[1..]);
    }
  }

  /** While every event leaves the client its window, the ids it has let in are remembered. */
  lemma {:induction false} RunRemembers(rule: Rule, max: int, o: Table, events: seq<Event>, c: int, id: int)
    requires Good(o) && Remembers(o, c, id) && KeepsAll(rule, max, o, events, c)
    ensures Remembers(Run(rule, max, o, events), c, id)
    decreases |events|
  {
    hide Remembers, Keeps, After, Good;
    if events != [] {
      AfterGood(rule, max, o, events[0]);
      RememberedAfter(rule, max, o, events[0], c, id);
      RunRemembers(rule, max, After(rule, max, o, events[0]), events[1..], c, id);
    }
  }

  /** And otherwise they are forgotten, if the id is not asked for in between. */
  lemma {:induction false} RunForgets(rule: Rule, max: int, o: Table, events: seq<Event>, c: int, id: int)
    requires Good(o) && forall i :: 0 <= i < |events| ==> !Asks(events[i], c, id)
    requires !(Remembers(o, c, id) && KeepsAll(rule, max, o, events, c))
    ensures !Remembers(Run(rule, max, o, events), c, id)
    decreases |events|
  {
    hide Remembers, Keeps, After, Good, Asks;
    if events != [] {
      var e, rest := events[0], events[1..];
      AfterGood(rule, max, o, e);
      if Remembers(o, c, id) {
        RememberedAfter(rule, max, o, e, c, id);
      } else {
        ForgottenAfter(rule, max, o, e, c, id);
      }
      RunForgets(rule, max, After(rule, max, o, e), rest, c, id);
    }
  }

  /** The answer to an id that has been let in once, after any run of other requests. While every event has left the
      client its window, the id is refused if and only if the client is active; once the window is lost, the table
      decides as if it had never seen the id. */
  lemma {:induction false} ReplayAnswer(rule: Rule, max: int, o: Table, events: seq<Event>, c: int, id: int, now: real)
    requires Good(o) && Remembers(o, c, id)
    ensures var t := Run(rule, max, o, events);
            KeepsAll(rule, max, o, events, c) ==>
              c in t.vals && (Inserted(rule, t, max, c, id, now).0 <==> !Active(rule, t.vals[c], now))
    ensures var t := Run(rule, max, o, events);
            !KeepsAll(rule, max, o, events, c) && (forall i :: 0 <= i < |events| ==> !Asks(events[i], c, id)) ==>
              !Remembers(t, c, id) && (Inserted(rule, t, max, c, id, now).0 <==> LetIn(rule, t, max, c, id, now))
  {
    hide Inserted, Good, Keeps, After, Evicts, Active, Asks;
    var t := Run(rule, max, o, events);
    RunGood(rule, max, o, events);
    AnswerIs(rule, t, max, c, id, now);
    if KeepsAll(rule, max, o, events, c) {
      RunRemembers(rule, max, o, events, c, id);
    } else if forall i :: 0 <= i < |events| ==> !Asks(events[i], c, id) {
      RunForgets(rule, max, o, events, c, id);
    }
  }

  /** What has been let in is remembered, by a window used just then. */
  lemma LetInRemembered(rule: Rule, max: int, o: Table, c: int, id: int, now: real)
    requires Good(o) && Inserted(rule, o, max, c, id, now).0
    ensures var t := Inserted(rule, o, max, c, id, now).1;
            Good(t) && Remembers(t, c, id) && t.vals[c].last == now && Active(rule, t.vals[c], now)
  {
    InsertedClients(rule, o, max, c, id, now);
  }

  // ----- open connections and the last data, counted on the events -----

  /** How many connections of a client the table counts: n before the event. */
  function Connections(max: int, o: Table, e: Event, c: int, n: nat): nat {
    match e
    case Inserts(d, id, now) =>
      var (ok, t) := Inserted(CountedIdle, o, max, d, id, now);
      if d == c then (if c in o.vals then n else 0) + if ok then 1 else 0
      else if c in t.vals then n
      else 0
    case Updates(_, _) => n
    case Removes(d) => if d == c && n > 0 then n - 1 else n
  }

  /** The accepted requests of a client since it last came into the table, less the connections it has ended since. */
  function OpenConnections(max: int, o: Table, events: seq<Event>, c: int, n: nat): nat
    decreases |events|
  {
    if events == [] then n
    else OpenConnections(max, After(CountedIdle, max, o, events[0]), events[1..], c,
                         Connections(max, o, events[0], c, n))
  }

  /** When a client was last heard of: its last request or data. */
  function LastHeard(events: seq<Event>, c: int, before: real): real {
    if events == [] then before
    else
      match events[|events| - 1]
      case Inserts(d, _, now) => if d == c then now else LastHeard(events[..|events| - 1], c, before)
      case Updates(d, now) => if d == c then now else LastHeard(events[..|events| - 1], c, before)
      case Removes(_) => LastHeard(events[..|events| - 1], c, before)
  }

  /** What the table holds for a client: how many connections, and when it was last heard of. */
  function RefOf(o: Table, c: int): nat {
    if c in o.vals then o.vals[c].ref else 0
  }

  function LastOf(o: Table, c: int): real {
    if c in o.vals then o.vals[c].last else 0.0
  }

  lemma CountsOne(max: int, o: Table, e: Event, c: int)
    requires Good(o)
    ensures RefOf(After(CountedIdle, max, o, e), c) == Connections(max, o, e, c, RefOf(o, c))
  {
    AfterGood(CountedIdle, max, o, e);
    hide Good, Accepts, Active, Evicts, Inserted, Updated, Removed;
    if e.Inserts? {
      InsertedClients(CountedIdle, o, max, e.c, e.id, e.now);
    }
  }

  /** The counter of a client is the number of its open connections. */
  lemma {:induction false} CountsConnections(max: int, o: Table, events: seq<Event>, c: int)
    requires Good(o)
    ensures RefOf(Run(CountedIdle, max, o, events), c) == OpenConnections(max, o, events, c, RefOf(o, c))
    decreases |events|
  {
    hide RefOf, After, Connections, Good;
    if events != [] {
      CountsOne(max, o, events[0], c);
      AfterGood(CountedIdle, max, o, events[0]);
      CountsConnections(max, After(CountedIdle, max, o, events[0]), events[1..], c);
    }
  }

  lemma {:induction false} HeardOne(rule: Rule, max: int, o: Table, e: Event, c: int, before: real)
    requires Good(o) && (c in o.vals ==> o.vals[c].last == before)
    ensures var t := After(rule, max, o, e);
            c in t.vals ==> t.vals[c].last == LastHeard([e], c, before)
  {
    AfterGood(rule, max, o, e);
    assert [e][..0] == [];
    assert LastHeard([], c, before) == before;
    hide Good, Accepts, Active, Evicts, Inserted, Updated, Removed;
    if e.Inserts? {
      InsertedClients(rule, o, max, e.c, e.id, e.now);
    }
  }

  lemma {:induction false} HeardThen(e: Event, rest: seq<Event>, c: int, before: real)
    ensures LastHeard([e] + rest, c, before) == LastHeard(rest, c, LastHeard([e], c, before))
    decreases |rest|
  {
    if rest == [] {
      assert [e] + rest == [e];
    } else {
      HeardThen(e, rest[..|rest| - 1], c, before);
      assert ([e] + rest)[..|rest|] == [e] + rest[..|rest| - 1];
    }
  }

  /** A client in the table was last heard of when its last request or data came. */
  lemma {:induction false} HearsOfClients(rule: Rule, max: int, o: Table, events: seq<Event>, c: int, before: real)
    requires Good(o) && (c in o.vals ==> o.vals[c].last == before)
    ensures var t := Run(rule, max, o, events);
            c in t.vals ==> t.vals[c].last == LastHeard(events, c, before)
    decreases |events|
  {
    hide After, Good, LastHeard;
    if events == [] {
      HeardNothing(c, before);
    } else {
      var e, rest := events[0], events[1..];
      HeardOne(rule, max, o, e, c, before);
      AfterGood(rule, max, o, e);
      HearsOfClients(rule, max, After(rule, max, o, e), rest, c, LastHeard([e], c, before));
      HeardThen(e, rest, c, before);
      assert [e] + rest == events;
    }
  }

  lemma {:induction false} HeardNothing(c: int, before: real)
    ensures LastHeard([], c, before) == before
  {
  }

  /** After any run, a client of auth_sha1_v4 or auth_aes128 is active for three minutes from when it was last heard of,
      and one of auth_chain for ten minutes, as long as it has a connection. */
  lemma {:induction false} ActiveAfter(rule: Rule, max: int, o: Table, events: seq<Event>, c: int, now: real)
    requires Good(o) && c in Run(rule, max, o, events).vals
    ensures Active(rule, Run(rule, max, o, events).vals[c], now)
       <==> match rule
            case Idle => now - LastHeard(events, c, LastOf(o, c)) < 180.0
            case CountedIdle =>
              && now - LastHeard(events, c, LastOf(o, c)) < 600.0
              && OpenConnections(max, o, events, c, RefOf(o, c)) > 0
  {
    hide Run, OpenConnections, LastHeard, Good;
    HearsOfClients(rule, max, o, events, c, LastOf(o, c));
    if rule == CountedIdle {
      CountsConnections(max, o, events, c);
    }
  }
}
