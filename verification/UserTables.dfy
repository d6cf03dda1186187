/**
 * A table of clients for every user (obfs_auth_mu_data and obfs_auth_chain_data): the objects, and that each user's
 * table goes through exactly the user's own calls.
 */
module UserTables {
  import opened ByteStrings
  import opened ClientRuns
  import opened ClientTable
  import opened Options
  import opened OrderedDictionary
  import opened ReplayWindow
  import opened StreamBasics

  type Tables<U> = map<U, Table>

  /** The clients of a user; a user who has not been heard of has none. */
  function TableOf<U>(us: Tables<U>, u: U): Table {
    if u in us then us[u] else NO_CLIENTS
  }

  function UserInserted<U>(rule: Rule, us: Tables<U>, max: int, u: U, c: int, id: int, now: real): (bool, Tables<U>) {
    var (ok, t) := Inserted(rule, TableOf(us, u), max, c, id, now);
    (ok, us[u := t])
  }

  function UserUpdated<U>(us: Tables<U>, u: U, c: int, now: real): Tables<U> {
    us[u := Updated(TableOf(us, u), c, now)]
  }

  /** A user without a table gets none. */
  function UserRemoved<U>(us: Tables<U>, u: U, c: int): Tables<U> {
    if u in us then us[u := Removed(us[u], c)] else us
  }

  ghost predicate AllGood<U(!new)>(us: Tables<U>) {
    forall u {:trigger us[u]} :: u in us ==> Good(us[u])
  }

  // ----- what a connection asks of the tables -----

  /** Whose connection it is, as far as the server knows: auth_sha1_v4 has one table for all, here that of no user. */
  datatype Caller<U> = Caller(user: Option<U>, client: U32)

  /** The ids in a greeting. */
  datatype Ids = Ids(client: U32, connection: U32)

  datatype Answer<U(==)> = Answer(admitted: bool, who: Caller<U>, tables: Tables<Option<U>>)

  /** A greeting that is good in all else is put before the table of its user. */
  function Asked<U(==)>(rule: Rule, max: int, us: Tables<Option<U>>, who: Caller<U>, ids: Option<Ids>, clock: real)
    : Answer<U> {
    match ids
    case None => Answer(true, who, us)
    case Some(Ids(c, id)) =>
      var (ok, us') := UserInserted(rule, us, max, who.user, c, id, clock);
      Answer(ok, if ok then who.(client := c) else who, us')
  }

  /** Data from the caller refreshes its window. */
  function Refreshed<U(==)>(us: Tables<Option<U>>, who: Caller<U>, reply: Reply, clock: real): Tables<Option<U>> {
    if Delivered(reply) != [] then UserUpdated(us, who.user, who.client, clock) else us
  }

  /** What a server's call leaves behind, and its reply. */
  datatype Outcome<E, U(==)> = Outcome(end: E, who: Caller<U>, tables: Tables<Option<U>>, reply: Reply)

  // ----- runs -----

  datatype UserEvent<U> = UserEvent(user: U, event: Event)

  function UserAfter<U>(rule: Rule, max: int, us: Tables<U>, e: UserEvent<U>): Tables<U> {
    match e.event
    case Inserts(c, id, now) => UserInserted(rule, us, max, e.user, c, id, now).1
    case Updates(c, now) => UserUpdated(us, e.user, c, now)
    case Removes(c) => UserRemoved(us, e.user, c)
  }

  function UserRun<U>(rule: Rule, max: int, us: Tables<U>, events: seq<UserEvent<U>>): Tables<U>
    decreases |events|
  {
    if events == [] then us else UserRun(rule, max, UserAfter(rule, max, us, events[0]), events[1..])
  }

  /** A user's own events. */
  function EventsOf<U(==)>(events: seq<UserEvent<U>>, u: U): seq<Event> {
    if events == [] then []
    else (if events[0].user == u then [events[0].event] else []) + EventsOf(events[1..], u)
  }

  lemma TableAfter<U>(rule: Rule, max: int, us: Tables<U>, e: UserEvent<U>, u: U)
    ensures TableOf(UserAfter(rule, max, us, e), u)
         == if e.user == u then After(rule, max, TableOf(us, u), e.event) else TableOf(us, u)
  {
    hide Inserted, Updated;
  }

  /** Users do not touch each other: a user's table is where the user's own events alone would have brought it. */
  lemma {:induction false} OwnEvents<U>(rule: Rule, max: int, us: Tables<U>, events: seq<UserEvent<U>>, u: U)
    ensures TableOf(UserRun(rule, max, us, events), u) == Run(rule, max, TableOf(us, u), EventsOf(events, u))
    decreases |events|
  {
    hide UserAfter, After;
    if events != [] {
      var e, rest := events[0], events[1..];
      TableAfter(rule, max, us, e, u);
      OwnEvents(rule, max, UserAfter(rule, max, us, e), rest, u);
      if e.user == u {
        assert ([e.event] + EventsOf(rest, u))[1..] == EventsOf(rest, u);
      } else {
        assert [] + EventsOf(rest, u) == EventsOf(rest, u);
      }
    }
  }

  lemma AfterAllGood<U(!new)>(rule: Rule, max: int, us: Tables<U>, e: UserEvent<U>)
    requires AllGood(us)
    ensures AllGood(UserAfter(rule, max, us, e))
  {
    assert Good(NO_CLIENTS);
    hide Good, Inserted, Updated, Removed;
    AfterGood(rule, max, TableOf(us, e.user), e.event);
    forall u {:trigger UserAfter(rule, max, us, e)[u]} | u in UserAfter(rule, max, us, e)
      ensures Good(UserAfter(rule, max, us, e)[u])
    {
      TableAfter(rule, max, us, e, u);
    }
  }

  lemma {:induction false} RunAllGood<U(!new)>(rule: Rule, max: int, us: Tables<U>, events: seq<UserEvent<U>>)
    requires AllGood(us)
    ensures AllGood(UserRun(rule, max, us, events))
    decreases |events|
  {
    hide AllGood;
    if events != [] {
      AfterAllGood(rule, max, us, events[0]);
      RunAllGood(rule, max, UserAfter(rule, max, us, events[0]), events[1..]);
    }
  }

  /** An id that has been let in is remembered, also when its first data has come. */
  lemma TakenRemembered<U(!new)>(rule: Rule, max: int, us: Tables<Option<U>>, who: Caller<U>, id: int, reply: Reply,
                                 now: real)
    requires AllGood(us) && UserInserted(rule, us, max, who.user, who.client, id, now).0
    ensures var us' := Refreshed(UserInserted(rule, us, max, who.user, who.client, id, now).1, who, reply, now);
            AllGood(us') && Remembers(TableOf(us', who.user), who.client, id)
  {
    assert Good(NO_CLIENTS);
    hide Good, Inserted, Updated;
    LetInRemembered(rule, max, TableOf(us, who.user), who.client, id, now);
    var us1 := UserInserted(rule, us, max, who.user, who.client, id, now).1;
    AfterAllGood(rule, max, us, UserEvent(who.user, Inserts(who.client, id, now)));
    AfterAllGood(rule, max, us1, UserEvent(who.user, Updates(who.client, now)));
    AfterGood(rule, max, TableOf(us1, who.user), Updates(who.client, now));
  }

  lemma NothingAsked<U(!new)>(rule: Rule, max: int, us: Tables<Option<U>>, who: Caller<U>, clock: real)
    ensures Asked(rule, max, us, who, None, clock) == Answer(true, who, us)
  {
  }

  /** ReplayAnswer with many users: the answer to a user's client and id that have been let in once, after any run. */
  lemma {:induction false} TriedAgain<U(!new)>(rule: Rule, max: int, us: Tables<U>, u: U, c: int, id: int,
                                               events: seq<UserEvent<U>>, now: real)
    requires Good(TableOf(us, u)) && Remembers(TableOf(us, u), c, id)
    ensures var us' := UserRun(rule, max, us, events);
            var t, own := TableOf(us', u), EventsOf(events, u);
            var again := UserInserted(rule, us', max, u, c, id, now).0;
            if KeepsAll(rule, max, TableOf(us, u), own, c) then
              c in t.vals && (again <==> !Active(rule, t.vals[c], now))
            else
              (forall i :: 0 <= i < |own| ==> !Asks(own[i], c, id)) ==>
                !Remembers(t, c, id) && (again <==> LetIn(rule, t, max, c, id, now))
  {
    hide KeepsAll, Inserted, LetIn, Active, Asks, Remembers, Good, UserRun, Run;
    OwnEvents(rule, max, us, events, u);
    ReplayAnswer(rule, max, TableOf(us, u), EventsOf(events, u), c, id, now);
  }

  /** What a call does to the tables, as events: the request of a greeting, and the data of one that is taken. */
  function CallEvents<U(==)>(rule: Rule, max: int, us: Tables<Option<U>>, who: Caller<U>, ids: Option<Ids>, taken: bool,
                             reply: Reply, clock: real)
    : seq<UserEvent<Option<U>>>
  {
    var known := Asked(rule, max, us, who, ids, clock).who;
    (if ids.Some? then [UserEvent(who.user, Inserts(ids.value.client, ids.value.connection, clock))] else [])
    + if taken && Delivered(reply) != [] then [UserEvent(known.user, Updates(known.client, clock))] else []
  }

  lemma {:induction false} CallIsRun<U>(rule: Rule, max: int, us: Tables<Option<U>>, who: Caller<U>, ids: Option<Ids>,
                                        taken: bool, reply: Reply, clock: real)
    ensures var a := Asked(rule, max, us, who, ids, clock);
            (if taken then Refreshed(a.tables, a.who, reply, clock) else a.tables)
            == UserRun(rule, max, us, CallEvents(rule, max, us, who, ids, taken, reply, clock))
  {
    hide UserInserted, UserUpdated, UserRun;
    var a := Asked(rule, max, us, who, ids, clock);
    var last := UserEvent(a.who.user, Updates(a.who.client, clock));
    NoEvents(rule, max, us);
    OneEvent(rule, max, us, last);
    if ids.Some? {
      var ask := UserEvent(who.user, Inserts(ids.value.client, ids.value.connection, clock));
      OneEvent(rule, max, us, ask);
      TwoEvents(rule, max, us, ask, last);
      assert [ask] + [last] == [ask, last] && [ask] + [] == [ask];
    } else {
      var none: seq<UserEvent<Option<U>>> := [];
      assert none + [last] == [last] && none + none == none;
    }
  }

  lemma {:induction false} NoEvents<U>(rule: Rule, max: int, us: Tables<U>)
    ensures UserRun(rule, max, us, []) == us
  {
  }

  lemma {:induction false} OneEvent<U>(rule: Rule, max: int, us: Tables<U>, e: UserEvent<U>)
    ensures UserRun(rule, max, us, [e]) == UserAfter(rule, max, us, e)
  {
    hide UserAfter;
  }

  lemma {:induction false} TwoEvents<U>(rule: Rule, max: int, us: Tables<U>, e: UserEvent<U>, f: UserEvent<U>)
    ensures UserRun(rule, max, us, [e, f]) == UserAfter(rule, max, UserAfter(rule, max, us, e), f)
  {
    hide UserAfter;
    OneEvent(rule, max, UserAfter(rule, max, us, e), f);
    assert [e, f][1..] == [f];
  }

  /** ActiveClientEvicted and SameIdAgain with many users, and data that comes with the greeting. */
  lemma {:induction false} PlaceLost<U(!new)>(rule: Rule, user: Option<U>, id: int, reply: Reply)
    ensures var us := UserRun(rule, 2, map[], [UserEvent(user, Inserts(1, id, 0.0))]);
            var us1 := Refreshed(UserInserted(rule, us, 2, user, 2, id, Lifetime(rule)).1, Caller(user, 2), reply,
                                 Lifetime(rule));
            var us2 := UserRun(rule, 2, us1, [UserEvent(user, Inserts(3, id, Lifetime(rule)))]);
            && AllGood(us) && LetIn(rule, TableOf(us, user), 2, 2, id, Lifetime(rule))
            && AllGood(us2) && LetIn(rule, TableOf(us2, user), 2, 2, id, Lifetime(rule))
  {
    hide Inserted, UserRun, LetIn, FirstOne, FirstTwo, FirstAndThird, Lifetime, Good, AllGood, NO_CLIENTS;
    var now := Lifetime(rule);
    FirstAlone(rule, id);
    SecondClient(rule, id);
    ThirdClient(rule, id);
    SameIdAgain(rule, id);
    assert LetIn(rule, FirstOne(rule, id), 2, 2, id, now) by {
      FirstRoom(rule, id);
    }
    var first, third := UserEvent(user, Inserts(1, id, 0.0)), UserEvent(user, Inserts(3, id, now));
    var us: Tables<Option<U>> := map[user := FirstOne(rule, id)];
    OneEvent(rule, 2, map[], first);
    assert UserRun(rule, 2, map[], [first]) == us;
    var inserted := UserInserted(rule, us, 2, user, 2, id, now).1;
    assert inserted == map[user := FirstTwo(rule, id)];
    var us1 := Refreshed(inserted, Caller(user, 2), reply, now);
    assert us1 == inserted;
    OneEvent(rule, 2, us1, third);
    NoneAllGood<Option<U>>();
    RunAllGood(rule, 2, map[], [first]);
    AfterAllGood(rule, 2, us, UserEvent(user, Inserts(2, id, now)));
    RunAllGood(rule, 2, us1, [third]);
  }

  lemma NoneAllGood<U(!new)>()
    ensures AllGood<U>(map[])
  {
  }

  class UserData<U(==, !new)> {
    const rule: Rule
    const maxClient: int
    var tables: map<U, ClientData>

    ghost predicate Valid() reads this, tables.Values {
      && (forall u, v :: u in tables && v in tables && u != v ==> tables[u] != tables[v])
      && (forall u :: u in tables ==>
            tables[u].rule == rule && tables[u].maxClient == maxClient && Good(tables[u].clients))
    }

    ghost function View(): Tables<U> reads this, tables.Values {
      map u | u in tables :: tables[u].clients
    }

    constructor (rule: Rule, maxClient: int)
      ensures Valid() && this.rule == rule && this.maxClient == maxClient && View() == map[]
    {
      this.rule, this.maxClient := rule, maxClient;
      tables := map[];
    }

    /** self.user_id[u], made if there is none. */
    method Clients(u: U) returns (data: ClientData)
      requires Valid()
      modifies this
      ensures Valid() && u in tables && data == tables[u]
      ensures View() == old(View())[u := TableOf(old(View()), u)]
      ensures forall v :: v in tables ==> (v in old(tables) && tables[v] == old(tables[v])) || fresh(tables[v])
    {
      if u !in tables {
        data := new ClientData(rule, maxClient);
        tables := tables[u := data];
      } else {
        data := tables[u];
      }
    }

    method Insert(u: U, c: int, id: int, now: real) returns (ok: bool)
      requires Valid()
      modifies this, tables.Values
      ensures fresh(tables.Values - old(tables.Values))
      ensures Valid() && (ok, View()) == UserInserted(rule, old(View()), maxClient, u, c, id, now)
    {
      hide Inserted, Good;
      var data := Clients(u);
      ghost var before := View();
      assert data.clients == before[u];
      ok := data.Insert(c, id, now);
      assert View() == before[u := data.clients];
      assert before[u := data.clients] == old(View())[u := data.clients];
    }

    method Update(u: U, c: int, now: real)
      requires Valid()
      modifies this, tables.Values
      ensures fresh(tables.Values - old(tables.Values))
      ensures Valid() && View() == UserUpdated(old(View()), u, c, now)
    {
      hide Updated, Good;
      var data := Clients(u);
      ghost var before := View();
      data.Update(c, now);
      assert View() == before[u := data.clients];
    }

    method Remove(u: U, c: int)
      requires Valid()
      modifies tables.Values
      ensures Valid() && View() == UserRemoved(old(View()), u, c)
    {
      hide Removed, Good;
      if u in tables {
        ghost var before := View();
        var data := tables[u];
        data.Remove(c);
        assert View() == before[u := data.clients];
      }
    }
  }
}
