/**
 * Admission for auth_chain, where a client counts as active while it has a connection and has sent data in the last ten
 * minutes: who is let in, for how long a greeting that has been taken is refused, and when it is taken again.
 */
module ChainAdmission {
  import opened ByteStrings
  import opened ChainEnds
  import opened ChainHandshake
  import opened ChainSession
  import opened ClientRuns
  import opened ClientTable
  import opened Options
  import opened ReplayWindow
  import opened StreamBasics
  import opened UserTables

  /** The user that the server takes the sender of an id for. */
  function UserOf(server: Config, uid: U32): Option<U32> {
    if uid in server.users then Some(uid) else None
  }

  /** A call that may complete a greeting: the state of the connection and the call. */
  datatype Attempt = Attempt(end: ServerEnd, who: Caller<U32>, chunk: Bytes, now: U32, clock: real)

  function Try(server: Config, max: int, us: Tables<Option<U32>>, a: Attempt): Outcome<ServerEnd, U32>
    requires ServerSane(a.end)
  {
    GuardedCall(server, max, a.end, a.who, us, a.chunk, a.now, a.clock)
  }

  /** The connection waits for a greeting, and with the call has all of this one. */
  predicate Brings(hello: Bytes, user: Option<U32>, a: Attempt) {
    !a.end.raw && !a.end.greeted && (a.who.user == None || a.who.user == user) && hello <= a.end.buf + a.chunk
  }

  /** A greeting that fits is judged by its time and by the answer of the tables. */
  lemma HelloTimed(client: Config, server: Config, uid: U32, auth: Card, head: Bytes, more: Bytes, now: U32,
                   admitted: bool)
    requires |head| == 4 && Fit(client, server, uid) && GoodCipher(client.p)
    ensures JudgeHello(server, HelloOf(client, uid, auth, head) + more, now, admitted)
         == if TimeAccepted(auth.utc, now) && admitted then Greeted(GreetingOf(client, uid, auth, head), uid)
            else NoMatch
  {
    hide TimeAccepted, LookupKey, ReadHello, Hello;
    HelloRoundTrip(client.p, server.users, server.key, server.recvIv, UserKey(client), client.salt, uid, auth, head,
                   more);
  }

  /** A greeting that fits, whatever follows it and in whatever pieces it has come, is taken if and only if it comes in
      time and the table of its user lets its ids in; otherwise the protocol ends. */
  lemma GreetingJudged(client: Config, server: Config, uid: U32, auth: Card, head: Bytes, max: int,
                       us: Tables<Option<U32>>, a: Attempt)
    requires |head| == 4 && Fit(client, server, uid) && GoodCipher(client.p)
    requires Brings(HelloOf(client, uid, auth, head), UserOf(server, uid), a) && AllGood(us)
    ensures var r, user := Try(server, max, us, a), UserOf(server, uid);
            && (r.end.greeted
                <==> TimeAccepted(auth.utc, a.now)
                     && LetIn(CountedIdle, TableOf(us, user), max, auth.clientId, auth.connectionId, a.clock))
            && if r.end.greeted then
                 && r.who == Caller(user, auth.clientId)
                 && r.tables == Refreshed(UserInserted(CountedIdle, us, max, user, auth.clientId, auth.connectionId,
                                                       a.clock).1, r.who, r.reply, a.clock)
               else
                 && r.end.raw && r.reply == Rejected && r.who.client == a.who.client
                 && r.tables == if TimeAccepted(auth.utc, a.now)
                                then UserInserted(CountedIdle, us, max, user, auth.clientId, auth.connectionId,
                                                  a.clock).1
                                else us
  {
    hide TimeAccepted, LetIn, Inserted, Good, Hello, JudgeHello, UserNamed, Greet, Refreshed;
    var hello, received := HelloOf(client, uid, auth, head), a.end.buf + a.chunk;
    var user, more := UserOf(server, uid), received[|hello|..];
    assert received == hello + more;
    GreetingNames(client, server, uid, auth, head, more, a.who.user);
    HelloTimed(client, server, uid, auth, head, more, a.now, true);
    HelloTimed(client, server, uid, auth, head, more, a.now, false);
    assert GreetingOf(client, uid, auth, head).card == auth by {
      GreetingCard(client, uid, auth, head);
    }
    NoneGood();
    AnswerIs(CountedIdle, TableOf(us, user), max, auth.clientId, auth.connectionId, a.clock);
    hide HelloOf, Fit, GoodCipher;
  }

  /** Whatever comes, a connection stands for no other client than before until it has taken a greeting. */
  lemma NobodyBefore(server: Config, max: int, us: Tables<Option<U32>>, a: Attempt)
    requires ServerSane(a.end)
    ensures var r := Try(server, max, us, a); r.end.greeted || r.who.client == a.who.client
  {
    hide ReadHello, UserInserted, TimeAccepted, Refreshed;
  }

  /** On a connection that has taken its greeting, a call that hands over data makes this the last time that its client
      was heard of, and others leave the tables alone. */
  lemma DataRefreshes(server: Config, max: int, us: Tables<Option<U32>>, a: Attempt)
    requires a.end.greeted && ServerSane(a.end) && !a.end.raw
    ensures var r := Try(server, max, us, a);
            var t, c := TableOf(us, a.who.user), a.who.client;
            && r.who == a.who
            && if Delivered(r.reply) == [] then r.tables == us
               else
                 && (c in t.vals ==>
                       && c in TableOf(r.tables, a.who.user).vals
                       && TableOf(r.tables, a.who.user).vals[c] == t.vals[c].(last := a.clock))
                 && (c !in t.vals ==> TableOf(r.tables, a.who.user) == t)
                 && forall u :: u != a.who.user ==> TableOf(r.tables, u) == TableOf(us, u)
  {
    hide ServerCall;
    StaysGreeted(server, a.end, Call(a.chunk, a.now, true));
  }

  /** The events of a call. */
  function EventsOfTry(server: Config, max: int, us: Tables<Option<U32>>, a: Attempt): seq<UserEvent<Option<U32>>>
    requires ServerSane(a.end)
  {
    var received, r := a.end.buf + a.chunk, Try(server, max, us, a);
    if a.end.raw then []
    else if a.end.greeted then CallEvents(CountedIdle, max, us, a.who, None, true, r.reply, a.clock)
    else
      CallEvents(CountedIdle, max, us, a.who.(user := UserNamed(server, received, a.who.user)),
                 IdsOf(server, received, a.now), r.end.greeted, r.reply, a.clock)
  }

  /** Whatever connections do to the tables is a run: each call adds at most two events, and a call on a connection that
      has taken its greeting only updates. */
  lemma {:induction false} CallRuns(server: Config, max: int, us: Tables<Option<U32>>, a: Attempt)
    requires ServerSane(a.end)
    ensures var events := EventsOfTry(server, max, us, a);
            && Try(server, max, us, a).tables == UserRun(CountedIdle, max, us, events) && |events| <= 2
            && (a.end.raw || a.end.greeted ==> forall e :: e in events ==> e.event.Updates?)
  {
    hide ServerCall, UserNamed, IdsOf, Asked, Refreshed, UserRun;
    var received, r := a.end.buf + a.chunk, Try(server, max, us, a);
    NothingAsked(CountedIdle, max, us, a.who, a.clock);
    NoEvents(CountedIdle, max, us);
    if a.end.greeted {
      CallIsRun(CountedIdle, max, us, a.who, None, true, r.reply, a.clock);
      StaysGreeted(server, a.end, Call(a.chunk, a.now, true));
    } else {
      CallIsRun(CountedIdle, max, us, a.who.(user := UserNamed(server, received, a.who.user)),
                IdsOf(server, received, a.now), r.end.greeted, r.reply, a.clock);
    }
  }

  /** A greeting that has been taken, on whatever connection, and comes again, whatever follows it, after any run of
      requests, data and endings of all clients. While the events of its user have left its client the window, it is
      refused if and only if it comes too late or the client is active. Once the client has lost its window, by having
      been idle or without a connection when it asks or by being deleted for another client, the greeting is like any
      other, unless its id has been asked for in between. */
  lemma {:induction false} GreetingOnce(client: Config, server: Config, uid: U32, auth: Card, head: Bytes, max: int,
                                        us: Tables<Option<U32>>, a: Attempt, events: seq<UserEvent<Option<U32>>>,
                                        b: Attempt)
    requires |head| == 4 && Fit(client, server, uid) && GoodCipher(client.p) && AllGood(us)
    requires var hello, user := HelloOf(client, uid, auth, head), UserOf(server, uid);
             Brings(hello, user, a) && Brings(hello, user, b)
    requires Try(server, max, us, a).end.greeted
    ensures var user, c, id := UserOf(server, uid), auth.clientId, auth.connectionId;
            var us1 := Try(server, max, us, a).tables;
            var us2 := UserRun(CountedIdle, max, us1, events);
            var t, own := TableOf(us2, user), EventsOf(events, user);
            var again := Try(server, max, us2, b).end.greeted;
            if KeepsAll(CountedIdle, max, TableOf(us1, user), own, c) then
              c in t.vals && (again <==> TimeAccepted(auth.utc, b.now) && !Active(CountedIdle, t.vals[c], b.clock))
            else
              (forall i :: 0 <= i < |own| ==> !Asks(own[i], c, id)) ==>
                && !Remembers(t, c, id)
                && (again <==> TimeAccepted(auth.utc, b.now) && LetIn(CountedIdle, t, max, c, id, b.clock))
  {
    assert ServerSane(a.end) && ServerSane(b.end);
    hide HelloOf, Fit, GoodCipher, Brings, Try, TimeAccepted, LetIn, Active, Inserted, KeepsAll, Asks, Remembers, Good;
    var r := Try(server, max, us, a);
    GreetingJudged(client, server, uid, auth, head, max, us, a);
    NoneGood();
    AnswerIs(CountedIdle, TableOf(us, UserOf(server, uid)), max, auth.clientId, auth.connectionId, a.clock);
    TakenRemembered(CountedIdle, max, us, r.who, auth.connectionId, r.reply, a.clock);
    GreetingAgain(client, server, uid, auth, head, max, r.tables, events, b);
  }

  /** From when its id is remembered. */
  lemma {:induction false} GreetingAgain(client: Config, server: Config, uid: U32, auth: Card, head: Bytes, max: int,
                                         us1: Tables<Option<U32>>, events: seq<UserEvent<Option<U32>>>, b: Attempt)
    requires |head| == 4 && Fit(client, server, uid) && GoodCipher(client.p) && AllGood(us1)
    requires Brings(HelloOf(client, uid, auth, head), UserOf(server, uid), b)
    requires Remembers(TableOf(us1, UserOf(server, uid)), auth.clientId, auth.connectionId)
    ensures var user, c, id := UserOf(server, uid), auth.clientId, auth.connectionId;
            var us2 := UserRun(CountedIdle, max, us1, events);
            var t, own := TableOf(us2, user), EventsOf(events, user);
            var again := Try(server, max, us2, b).end.greeted;
            if KeepsAll(CountedIdle, max, TableOf(us1, user), own, c) then
              c in t.vals && (again <==> TimeAccepted(auth.utc, b.now) && !Active(CountedIdle, t.vals[c], b.clock))
            else
              (forall i :: 0 <= i < |own| ==> !Asks(own[i], c, id)) ==>
                && !Remembers(t, c, id)
                && (again <==> TimeAccepted(auth.utc, b.now) && LetIn(CountedIdle, t, max, c, id, b.clock))
  {
    assert ServerSane(b.end);
    hide HelloOf, Fit, GoodCipher, Brings, Try, TimeAccepted, LetIn, Active, Inserted, KeepsAll, Asks, Remembers, Good;
    hide UserRun, EventsOf;
    var user, c, id := UserOf(server, uid), auth.clientId, auth.connectionId;
    var us2 := UserRun(CountedIdle, max, us1, events);
    RunAllGood(CountedIdle, max, us1, events);
    GreetingJudged(client, server, uid, auth, head, max, us2, b);
    NoneGood();
    AnswerIs(CountedIdle, TableOf(us2, user), max, c, id, b.clock);
    TriedAgain(CountedIdle, max, us1, user, c, id, events, b.clock);
  }

  /** Not always: with room for two clients, the greeting of an active client is taken, another client comes, for which
      that client has to go, and the same bytes are taken again at the same time. */
  lemma TakenTwice(client: Config, server: Config, uid: U32, auth: Card, head: Bytes, now: U32)
    requires |head| == 4 && Fit(client, server, uid) && GoodCipher(client.p) && TimeAccepted(auth.utc, now)
    requires auth.clientId == 2
    ensures var user, id := UserOf(server, uid), auth.connectionId;
            var a := Attempt(FRESH_SERVER, NOBODY, HelloOf(client, uid, auth, head), now, COUNTED_IDLE);
            var us := UserRun(CountedIdle, 2, map[], [UserEvent(user, Inserts(1, id, 0.0))]);
            var r := Try(server, 2, us, a);
            var us' := UserRun(CountedIdle, 2, r.tables, [UserEvent(user, Inserts(3, id, COUNTED_IDLE))]);
            r.end.greeted && Try(server, 2, us', a).end.greeted
  {
    hide HelloOf, Fit, GoodCipher, TimeAccepted, LetIn, Inserted, UserRun, Refreshed, Good, GuardedCall;
    var user, id, hello := UserOf(server, uid), auth.connectionId, HelloOf(client, uid, auth, head);
    var a := Attempt(FRESH_SERVER, NOBODY, hello, now, COUNTED_IDLE);
    assert [] + hello == hello;
    var us := UserRun(CountedIdle, 2, map[], [UserEvent(user, Inserts(1, id, 0.0))]);
    PlaceLost(CountedIdle, user, id, Try(server, 2, us, a).reply);
    GreetingJudged(client, server, uid, auth, head, 2, us, a);
    var us1 := Try(server, 2, us, a).tables;
    var us2 := UserRun(CountedIdle, 2, us1, [UserEvent(user, Inserts(3, id, COUNTED_IDLE))]);
    GreetingJudged(client, server, uid, auth, head, 2, us2, a);
  }

  /** While its window is kept, a greeting that comes again in time is refused if and only if the client has a
      connection open, counted over the run, and was heard of in the last ten minutes. */
  lemma {:induction false} RefusedWhileOpen(client: Config, server: Config, uid: U32, auth: Card, head: Bytes,
                                            max: int, us: Tables<Option<U32>>, a: Attempt,
                                            events: seq<UserEvent<Option<U32>>>, b: Attempt)
    requires |head| == 4 && Fit(client, server, uid) && GoodCipher(client.p) && AllGood(us)
    requires var hello, user := HelloOf(client, uid, auth, head), UserOf(server, uid);
             Brings(hello, user, a) && Brings(hello, user, b)
    requires Try(server, max, us, a).end.greeted
    requires KeepsAll(CountedIdle, max, TableOf(Try(server, max, us, a).tables, UserOf(server, uid)),
                      EventsOf(events, UserOf(server, uid)), auth.clientId)
    ensures var user, c := UserOf(server, uid), auth.clientId;
            var us1 := Try(server, max, us, a).tables;
            var t, own := TableOf(us1, user), EventsOf(events, user);
            var us2 := UserRun(CountedIdle, max, us1, events);
            Try(server, max, us2, b).end.greeted
            <==> TimeAccepted(auth.utc, b.now)
                 && (OpenConnections(max, t, own, c, RefOf(t, c)) == 0
                     || b.clock - LastHeard(own, c, LastOf(t, c)) >= 600.0)
  {
    assert ServerSane(a.end) && ServerSane(b.end);
    hide HelloOf, Fit, GoodCipher, Brings, TimeAccepted, LetIn, Active, KeepsAll, Asks, Remembers, Good, Try;
    hide LastHeard, OpenConnections, LastOf, RefOf, EventsOf, UserRun, Refreshed, UserInserted;
    var user, c := UserOf(server, uid), auth.clientId;
    var us1 := Try(server, max, us, a).tables;
    GreetingOnce(client, server, uid, auth, head, max, us, a, events, b);
    TablesStayGood(client, server, uid, auth, head, max, us, a);
    OwnEvents(CountedIdle, max, us1, events, user);
    ActiveAfter(CountedIdle, max, TableOf(us1, user), EventsOf(events, user), c, b.clock);
  }

  lemma {:induction false} TablesStayGood(client: Config, server: Config, uid: U32, auth: Card, head: Bytes, max: int,
                                          us: Tables<Option<U32>>, a: Attempt)
    requires |head| == 4 && Fit(client, server, uid) && GoodCipher(client.p) && AllGood(us)
    requires Brings(HelloOf(client, uid, auth, head), UserOf(server, uid), a)
    requires Try(server, max, us, a).end.greeted
    ensures var t := TableOf(Try(server, max, us, a).tables, UserOf(server, uid));
            Good(t) && auth.clientId in t.vals
  {
    assert ServerSane(a.end);
    hide HelloOf, Fit, GoodCipher, Brings, Try, TimeAccepted, LetIn, Inserted, Good;
    GreetingJudged(client, server, uid, auth, head, max, us, a);
    NoneGood();
    AnswerIs(CountedIdle, TableOf(us, UserOf(server, uid)), max, auth.clientId, auth.connectionId, a.clock);
    var r := Try(server, max, us, a);
    TakenRemembered(CountedIdle, max, us, r.who, auth.connectionId, r.reply, a.clock);
  }

  /** So when the client ends a connection, the greeting is taken again, if it comes in time, if and only if that was
      its only one or it was not heard of for ten minutes. */
  lemma {:induction false} TakenAfterClosing(client: Config, server: Config, uid: U32, auth: Card, head: Bytes,
                                             max: int, us: Tables<Option<U32>>, a: Attempt, b: Attempt)
    requires |head| == 4 && Fit(client, server, uid) && GoodCipher(client.p) && AllGood(us)
    requires var hello, user := HelloOf(client, uid, auth, head), UserOf(server, uid);
             Brings(hello, user, a) && Brings(hello, user, b)
    requires Try(server, max, us, a).end.greeted
    ensures var us1 := Try(server, max, us, a).tables;
            var t := TableOf(us1, UserOf(server, uid));
            var us2 := UserRun(CountedIdle, max, us1, [UserEvent(UserOf(server, uid), Removes(auth.clientId))]);
            && auth.clientId in t.vals
            && (Try(server, max, us2, b).end.greeted
                <==> TimeAccepted(auth.utc, b.now)
                     && (t.vals[auth.clientId].ref <= 1 || b.clock - t.vals[auth.clientId].last >= 600.0))
  {
    assert ServerSane(a.end) && ServerSane(b.end);
    var user, c := UserOf(server, uid), auth.clientId;
    var us1 := Try(server, max, us, a).tables;
    hide HelloOf, Fit, GoodCipher, Brings, Try, TimeAccepted, AllGood, Good, UserRun, LastHeard, OpenConnections;
    hide KeepsAll;
    TablesStayGood(client, server, uid, auth, head, max, us, a);
    OnlyRemoval(max, us1, user, c);
    RefusedWhileOpen(client, server, uid, auth, head, max, us, a, [UserEvent(user, Removes(c))], b);
  }

  lemma {:induction false} OnlyRemoval(max: int, us: Tables<Option<U32>>, user: Option<U32>, c: U32)
    requires c in TableOf(us, user).vals
    ensures var own, t := EventsOf([UserEvent(user, Removes(c))], user), TableOf(us, user);
            && KeepsAll(CountedIdle, max, t, own, c)
            && OpenConnections(max, t, own, c, RefOf(t, c)) == (if t.vals[c].ref > 0 then t.vals[c].ref - 1 else 0)
            && LastHeard(own, c, LastOf(t, c)) == t.vals[c].last
  {
    hide After;
    assert EventsOf([UserEvent(user, Removes(c))], user) == [Removes(c)];
    assert [Removes(c)][..0] == [];
    HeardNothing(c, LastOf(TableOf(us, user), c));
  }
}
