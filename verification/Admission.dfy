/**
 * Greetings of auth_sha1_v4 and auth_aes128 before the tables of clients: who is let in, for how long a greeting that
 * has been taken is refused, and when it is taken again.
 */
module Admission {
  import opened AuthEnds
  import opened AuthFrames
  import opened AuthGreeting
  import opened AuthSession
  import opened AuthStream
  import opened ByteStrings
  import opened ClientRuns
  import opened ClientTable
  import opened FrameLoop
  import opened Options
  import opened ReplayWindow
  import opened StreamBasics
  import opened UserTables

  // ----- what a greeting says -----

  /** Whom the server takes the sender of the greeting for: the user that the id in it stands for. */
  ghost predicate Names(server: Protocol, hello: Bytes, card: Card, user: Option<Uid>) {
    forall w, u {:trigger UserNamed(server, w, u)} :: (w <= hello || hello <= w) && (u == None || u == user) ==>
      && (UserNamed(server, w, u) == None || UserNamed(server, w, u) == user)
      && (hello <= w ==> forall now {:trigger CardOf(server, now, w)} ::
            CardOf(server, now, w).Some? ==> CardOf(server, now, w) == Some(card) && UserNamed(server, w, u) == user)
  }

  function UserOf(server: Protocol, uid: Uid): Option<Uid> {
    if server.AuthAes128? && uid in server.users then Some(uid) else None
  }

  lemma HelloNames(client: Protocol, server: Protocol, card: Card, d: Drawn, first: Bytes)
    requires Fit(client, server, d.uid) && Drawable(client, d, first)
    ensures Names(server, HelloOf(client, card, d, first), card, UserOf(server, d.uid))
  {
    hide LookupKey, TellsSize, HeadFails, ReadSha1, ReadAes, Sha1Card, AesCard, Sha1Hello, AesHello;
    var hello, user := HelloOf(client, card, d, first), UserOf(server, d.uid);
    forall w, u {:trigger UserNamed(server, w, u)} | (w <= hello || hello <= w) && (u == None || u == user)
      ensures UserNamed(server, w, u) == None || UserNamed(server, w, u) == user
      ensures hello <= w ==> forall now {:trigger CardOf(server, now, w)} ::
                CardOf(server, now, w).Some? ==> CardOf(server, now, w) == Some(card) && UserNamed(server, w, u) == user
    {
      if client.AuthAes128? {
        AesIdentifies(client, server, card, d, first, w, u);
      } else if hello <= w {
        Sha1Identifies(client, server, card, d, first, w);
      }
    }
  }

  lemma Sha1Identifies(client: Protocol, server: Protocol, card: Card, d: Drawn, first: Bytes, w: Bytes)
    requires client.AuthSha1V4? && Fit(client, server, d.uid) && Drawable(client, d, first)
    requires HelloOf(client, card, d, first) <= w
    ensures forall now {:trigger CardOf(server, now, w)} ::
              CardOf(server, now, w).Some? ==> CardOf(server, now, w) == Some(card)
  {
    hide TellsSize, ReadSha1, Sha1Card, Sha1Hello;
    var hello := HelloOf(client, card, d, first);
    var more := w[|hello|..];
    assert w == hello + more;
    forall now {:trigger CardOf(server, now, w)} | CardOf(server, now, w).Some?
      ensures CardOf(server, now, w) == Some(card)
    {
      Sha1CardIs(server.sha1, d.rnd, card, first, now, more);
    }
  }

  lemma AesIdentifies(client: Protocol, server: Protocol, card: Card, d: Drawn, first: Bytes, w: Bytes, u: Option<Uid>)
    requires client.AuthAes128? && Fit(client, server, d.uid) && Drawable(client, d, first)
    requires (u == None || u == UserOf(server, d.uid))
             && (w <= HelloOf(client, card, d, first) || HelloOf(client, card, d, first) <= w)
    ensures UserNamed(server, w, u) == None || UserNamed(server, w, u) == UserOf(server, d.uid)
    ensures HelloOf(client, card, d, first) <= w ==> forall now {:trigger CardOf(server, now, w)} ::
              CardOf(server, now, w).Some? ==>
                CardOf(server, now, w) == Some(card) && UserNamed(server, w, u) == UserOf(server, d.uid)
  {
    hide LookupKey, TellsSize, HeadFails, ReadAes, AesCard, AesHello;
    var hello := HelloOf(client, card, d, first);
    UidOfHello(client.aes, ClientKey(client), card, d, first);
    if |w| >= 31 {
      assert w[7..11] == hello[7..11];
    }
    if hello <= w {
      var more := w[|hello|..];
      assert w == hello + more;
      AesNamed(server.aes, server.users, ClientKey(client), card, d, first, more);
      AesChecked(server.aes, ClientKey(client), card, d, first, more);
    }
  }

  /** The first two checks of a greeting hold. */
  lemma AesChecked(p: Aes, userKey: Bytes, card: Card, d: Drawn, first: Bytes, more: Bytes)
    requires FitsSize(d.rnd, first)
    ensures var buf := AesHello(p, userKey, card, d, first) + more;
            !HeadFails(p, buf) && p.mac(p.iv + p.key, buf[7..27])[..4] == buf[27..31]
  {
    hide AesHello, AesCore;
    AesParts(p, userKey, card, d, first, more);
  }

  /** A greeting that fits is judged by its time and by the answer of the tables. */
  lemma HelloTimed(client: Protocol, server: Protocol, card: Card, d: Drawn, first: Bytes, now: U32, admitted: bool,
                   more: Bytes)
    requires Fit(client, server, d.uid) && Drawable(client, d, first)
    ensures var hello := HelloOf(client, card, d, first);
            JudgeOf(server, now, admitted)(hello + more)
            == if TimeAccepted(card.utc, now) && admitted then Greeted(ClientKey(client), first, |hello|) else NoMatch
  {
    hide Sha1Hello, AesHello, TimeAccepted, LookupKey, TellsSize, ReadSha1, ReadAes;
    match client {
      case AuthSha1V4(sha1, _) => Sha1Whole(sha1, d.rnd, card, first, now, admitted, more);
      case AuthAes128(aes, _, _, _) =>
        AesWhole(aes, server.users, server.extra, ClientKey(client), card, d, first, now, admitted, more);
    }
  }

  // ----- attempts -----

  /** A call that may complete a greeting: the state of the connection and the call. */
  datatype Attempt = Attempt(end: End, who: Caller<Uid>, chunk: Bytes, now: U32, clock: real)

  function Try(server: Protocol, compatible: bool, max: int, us: Tables<Option<Uid>>, a: Attempt): Outcome<End, Uid>
    requires Sane(a.end)
  {
    GuardedCall(server, compatible, max, a.end, a.who, us, a.chunk, a.now, a.clock)
  }

  /** The connection waits for a greeting, and with the call has all of this one. */
  predicate Brings(hello: Bytes, user: Option<Uid>, a: Attempt) {
    !a.end.raw && !a.end.greeted && (a.who.user == None || a.who.user == user) && hello <= a.end.buf + a.chunk
  }

  /** A greeting that fits, whatever follows it and in whatever pieces it has come, is taken if and only if it comes in
      time and the table of its user lets its ids in; otherwise the protocol ends. */
  lemma GreetingJudged(client: Protocol, server: Protocol, compatible: bool, card: Card, d: Drawn, first: Bytes,
                       max: int, us: Tables<Option<Uid>>, a: Attempt)
    requires Fit(client, server, d.uid) && Drawable(client, d, first)
    requires Brings(HelloOf(client, card, d, first), UserOf(server, d.uid), a) && AllGood(us)
    ensures var r, user := Try(server, compatible, max, us, a), UserOf(server, d.uid);
            && (r.end.greeted
                <==> TimeAccepted(card.utc, a.now)
                     && LetIn(Idle, TableOf(us, user), max, card.clientId, card.connectionId, a.clock))
            && if r.end.greeted then
                 && r.who == Caller(user, card.clientId)
                 && r.tables == Refreshed(UserInserted(Idle, us, max, user, card.clientId, card.connectionId,
                                                       a.clock).1,
                                          r.who, r.reply, a.clock)
               else
                 && r.end.raw && (r.reply == if compatible then Data(a.end.buf + a.chunk, false) else Rejected)
                 && r.who.client == a.who.client
                 && r.tables == if TimeAccepted(card.utc, a.now)
                                then UserInserted(Idle, us, max, user, card.clientId, card.connectionId, a.clock).1
                                else us
  {
    hide Sha1Hello, AesHello, TimeAccepted, LetIn, Inserted, Good, Names, Try;
    var hello, received := HelloOf(client, card, d, first), a.end.buf + a.chunk;
    var user, more := UserOf(server, d.uid), received[|hello|..];
    assert received == hello + more;
    HelloNames(client, server, card, d, first);
    HelloTimed(client, server, card, d, first, a.now, true, more);
    HelloTimed(client, server, card, d, first, a.now, false, more);
    assert Good(TableOf(us, user)) by {
      NoneGood();
    }
    AnswerIs(Idle, TableOf(us, user), max, card.clientId, card.connectionId, a.clock);
    hide HelloOf, Fit, Drawable, JudgeOf;
    JudgedCall(server, compatible, card, user, hello, max, us, a);
  }

  lemma JudgedCall(server: Protocol, compatible: bool, card: Card, user: Option<Uid>, hello: Bytes, max: int,
                   us: Tables<Option<Uid>>, a: Attempt)
    requires Brings(hello, user, a) && Names(server, hello, card, user)
    requires var received := a.end.buf + a.chunk;
             && (forall admitted {:trigger JudgeOf(server, a.now, admitted)} ::
                   if TimeAccepted(card.utc, a.now) && admitted then JudgeOf(server, a.now, admitted)(received).Greeted?
                   else JudgeOf(server, a.now, admitted)(received) == NoMatch)
    ensures var r := Try(server, compatible, max, us, a);
            var (ok, us') := UserInserted(Idle, us, max, user, card.clientId, card.connectionId, a.clock);
            && (r.end.greeted <==> TimeAccepted(card.utc, a.now) && ok)
            && if r.end.greeted then
                 r.who == Caller(user, card.clientId) && r.tables == Refreshed(us', r.who, r.reply, a.clock)
               else
                 && r.end.raw && (r.reply == if compatible then Data(a.end.buf + a.chunk, false) else Rejected)
                 && r.who.client == a.who.client
                 && r.tables == if TimeAccepted(card.utc, a.now) then us' else us
  {
    hide UserInserted, Refreshed, TimeAccepted, JudgeOf, UserNamed, KeyAfter, FormatOf, Slice, Sha1Card, AesCard;
    hide Decode;
    var received := a.end.buf + a.chunk;
    assert CardOf(server, a.now, received).Some? <==> TimeAccepted(card.utc, a.now);
  }

  /** Whatever comes, a connection stands for no other client than before until it has taken a greeting. */
  lemma NobodyBefore(server: Protocol, compatible: bool, max: int, us: Tables<Option<Uid>>, a: Attempt)
    requires Sane(a.end)
    ensures var r := Try(server, compatible, max, us, a); r.end.greeted || r.who.client == a.who.client
  {
    hide UserInserted, Refreshed, TimeAccepted, UserNamed, KeyAfter, FormatOf, Slice, Sha1Card, AesCard;
    hide Decode;
  }

  /** On a connection that has taken its greeting, a call that hands over data makes this the last time that its client
      was heard of, and others leave the tables alone. */
  lemma DataRefreshes(server: Protocol, compatible: bool, max: int, us: Tables<Option<Uid>>, a: Attempt)
    requires a.end.greeted && Sane(a.end) && !a.end.raw
    ensures var r := Try(server, compatible, max, us, a);
            var t, c := TableOf(us, a.who.user), a.who.client;
            && r.who == a.who
            && if Delivered(r.reply) == [] then r.tables == us
               else
                 && (c in t.vals ==>
                       && c in TableOf(r.tables, a.who.user).vals
                       && TableOf(r.tables, a.who.user).vals[c] == t.vals[c].(last := a.clock))
                 && (c !in t.vals ==> TableOf(r.tables, a.who.user) == t)
                 && forall u :: u != a.who.user ==> TableOf(r.tables, u) == TableOf(us, u)
  {
    hide ServerCall;
    StaysGreeted(server, compatible, a.end, Call(a.chunk, a.now, true));
  }

  // ----- runs -----

  /** The events of a call. */
  function EventsOfTry(server: Protocol, compatible: bool, max: int, us: Tables<Option<Uid>>, a: Attempt)
    : seq<UserEvent<Option<Uid>>>
    requires Sane(a.end)
  {
    var received, r := a.end.buf + a.chunk, Try(server, compatible, max, us, a);
    if a.end.raw then []
    else if a.end.greeted then CallEvents(Idle, max, us, a.who, None, true, r.reply, a.clock)
    else
      CallEvents(Idle, max, us, a.who.(user := UserNamed(server, received, a.who.user)),
                 IdsOf(CardOf(server, a.now, received)), r.end.greeted, r.reply, a.clock)
  }

  /** Whatever connections do to the tables is a run: each call adds at most two events, and a call on a connection that
      has taken its greeting only updates. */
  lemma {:induction false} CallRuns(server: Protocol, compatible: bool, max: int, us: Tables<Option<Uid>>, a: Attempt)
    requires Sane(a.end)
    ensures var events := EventsOfTry(server, compatible, max, us, a);
            && Try(server, compatible, max, us, a).tables == UserRun(Idle, max, us, events) && |events| <= 2
            && (a.end.raw || a.end.greeted ==> forall e :: e in events ==> e.event.Updates?)
  {
    hide ServerCall, UserNamed, CardOf, Asked, Refreshed, UserRun;
    var received, r := a.end.buf + a.chunk, Try(server, compatible, max, us, a);
    NothingAsked(Idle, max, us, a.who, a.clock);
    NoEvents(Idle, max, us);
    if a.end.greeted {
      CallIsRun(Idle, max, us, a.who, None, true, r.reply, a.clock);
      StaysGreeted(server, compatible, a.end, Call(a.chunk, a.now, true));
    } else {
      CallIsRun(Idle, max, us, a.who.(user := UserNamed(server, received, a.who.user)),
                IdsOf(CardOf(server, a.now, received)), r.end.greeted, r.reply, a.clock);
    }
  }

  /** A greeting that has been taken, on whatever connection, and comes again, whatever follows it, after any run of
      requests, data and endings of all clients. While the events of its user have left its client the window, it is
      refused if and only if it comes too late or the client is active. Once the client has lost its window, by being
      idle when it asks or by being deleted for another client, the greeting is like any other, unless its id has been
      asked for in between. */
  lemma {:induction false} GreetingOnce(client: Protocol, server: Protocol, compatible: bool, card: Card, d: Drawn,
                                        first: Bytes, max: int, us: Tables<Option<Uid>>, a: Attempt,
                                        events: seq<UserEvent<Option<Uid>>>, b: Attempt)
    requires Fit(client, server, d.uid) && Drawable(client, d, first) && AllGood(us)
    requires var hello, user := HelloOf(client, card, d, first), UserOf(server, d.uid);
             Brings(hello, user, a) && Brings(hello, user, b)
    requires Try(server, compatible, max, us, a).end.greeted
    ensures var user, c, id := UserOf(server, d.uid), card.clientId, card.connectionId;
            var us1 := Try(server, compatible, max, us, a).tables;
            var us2 := UserRun(Idle, max, us1, events);
            var t, own := TableOf(us2, user), EventsOf(events, user);
            var again := Try(server, compatible, max, us2, b).end.greeted;
            if KeepsAll(Idle, max, TableOf(us1, user), own, c) then
              c in t.vals && (again <==> TimeAccepted(card.utc, b.now) && !Active(Idle, t.vals[c], b.clock))
            else
              (forall i :: 0 <= i < |own| ==> !Asks(own[i], c, id)) ==>
                && !Remembers(t, c, id)
                && (again <==> TimeAccepted(card.utc, b.now) && LetIn(Idle, t, max, c, id, b.clock))
  {
    assert Sane(a.end) && Sane(b.end);
    hide HelloOf, Fit, Drawable, Brings, Try, TimeAccepted, LetIn, Active, Inserted, KeepsAll, Asks, Remembers, Good;
    var r := Try(server, compatible, max, us, a);
    GreetingJudged(client, server, compatible, card, d, first, max, us, a);
    NoneGood();
    AnswerIs(Idle, TableOf(us, UserOf(server, d.uid)), max, card.clientId, card.connectionId, a.clock);
    TakenRemembered(Idle, max, us, r.who, card.connectionId, r.reply, a.clock);
    GreetingAgain(client, server, compatible, card, d, first, max, r.tables, events, b);
  }

  /** From when its id is remembered. */
  lemma {:induction false} GreetingAgain(client: Protocol, server: Protocol, compatible: bool, card: Card, d: Drawn,
                                         first: Bytes, max: int, us1: Tables<Option<Uid>>,
                                         events: seq<UserEvent<Option<Uid>>>, b: Attempt)
    requires Fit(client, server, d.uid) && Drawable(client, d, first) && AllGood(us1)
    requires Brings(HelloOf(client, card, d, first), UserOf(server, d.uid), b)
    requires Remembers(TableOf(us1, UserOf(server, d.uid)), card.clientId, card.connectionId)
    ensures var user, c, id := UserOf(server, d.uid), card.clientId, card.connectionId;
            var us2 := UserRun(Idle, max, us1, events);
            var t, own := TableOf(us2, user), EventsOf(events, user);
            var again := Try(server, compatible, max, us2, b).end.greeted;
            if KeepsAll(Idle, max, TableOf(us1, user), own, c) then
              c in t.vals && (again <==> TimeAccepted(card.utc, b.now) && !Active(Idle, t.vals[c], b.clock))
            else
              (forall i :: 0 <= i < |own| ==> !Asks(own[i], c, id)) ==>
                && !Remembers(t, c, id)
                && (again <==> TimeAccepted(card.utc, b.now) && LetIn(Idle, t, max, c, id, b.clock))
  {
    assert Sane(b.end);
    hide HelloOf, Fit, Drawable, Brings, Try, TimeAccepted, LetIn, Active, Inserted, KeepsAll, Asks, Remembers, Good;
    hide UserRun, EventsOf;
    var user, c, id := UserOf(server, d.uid), card.clientId, card.connectionId;
    var us2 := UserRun(Idle, max, us1, events);
    RunAllGood(Idle, max, us1, events);
    GreetingJudged(client, server, compatible, card, d, first, max, us2, b);
    NoneGood();
    AnswerIs(Idle, TableOf(us2, user), max, c, id, b.clock);
    TriedAgain(Idle, max, us1, user, c, id, events, b.clock);
  }

  /** While its window is kept, a greeting that comes again in time is refused if and only if the client was heard of in
      the last three minutes. */
  lemma {:induction false} RefusedWhileHeard(client: Protocol, server: Protocol, compatible: bool, card: Card, d: Drawn,
                                             first: Bytes, max: int, us: Tables<Option<Uid>>, a: Attempt,
                                             events: seq<UserEvent<Option<Uid>>>, b: Attempt)
    requires Fit(client, server, d.uid) && Drawable(client, d, first) && AllGood(us)
    requires var hello, user := HelloOf(client, card, d, first), UserOf(server, d.uid);
             Brings(hello, user, a) && Brings(hello, user, b)
    requires Try(server, compatible, max, us, a).end.greeted
    requires KeepsAll(Idle, max, TableOf(Try(server, compatible, max, us, a).tables, UserOf(server, d.uid)),
                      EventsOf(events, UserOf(server, d.uid)), card.clientId)
    ensures var user, c := UserOf(server, d.uid), card.clientId;
            var us1 := Try(server, compatible, max, us, a).tables;
            var t, own := TableOf(us1, user), EventsOf(events, user);
            Try(server, compatible, max, UserRun(Idle, max, us1, events), b).end.greeted
            <==> TimeAccepted(card.utc, b.now) && b.clock - LastHeard(own, c, LastOf(t, c)) >= 180.0
  {
    assert Sane(a.end) && Sane(b.end);
    hide HelloOf, Fit, Drawable, Brings, TimeAccepted, LetIn, Active, KeepsAll, Asks, Remembers, Good, Try;
    hide LastHeard, OpenConnections, LastOf, RefOf, EventsOf, UserRun, Refreshed, UserInserted;
    var user, c := UserOf(server, d.uid), card.clientId;
    var us1 := Try(server, compatible, max, us, a).tables;
    GreetingOnce(client, server, compatible, card, d, first, max, us, a, events, b);
    TablesStayGood(client, server, compatible, card, d, first, max, us, a);
    OwnEvents(Idle, max, us1, events, user);
    ActiveAfter(Idle, max, TableOf(us1, user), EventsOf(events, user), c, b.clock);
  }

  lemma {:induction false} TablesStayGood(client: Protocol, server: Protocol, compatible: bool, card: Card, d: Drawn,
                                          first: Bytes, max: int, us: Tables<Option<Uid>>, a: Attempt)
    requires Fit(client, server, d.uid) && Drawable(client, d, first) && AllGood(us)
    requires Brings(HelloOf(client, card, d, first), UserOf(server, d.uid), a)
    requires Try(server, compatible, max, us, a).end.greeted
    ensures Good(TableOf(Try(server, compatible, max, us, a).tables, UserOf(server, d.uid)))
  {
    assert Sane(a.end);
    hide HelloOf, Fit, Drawable, Brings, Try, TimeAccepted, LetIn, Inserted, Good;
    GreetingJudged(client, server, compatible, card, d, first, max, us, a);
    NoneGood();
    AnswerIs(Idle, TableOf(us, UserOf(server, d.uid)), max, card.clientId, card.connectionId, a.clock);
    var r := Try(server, compatible, max, us, a);
    TakenRemembered(Idle, max, us, r.who, card.connectionId, r.reply, a.clock);
  }

  /** Not always: with room for two clients, the greeting of an active client is taken, another client comes, for which
      that client has to go, and the same bytes are taken again at the same time. */
  lemma TakenTwice(client: Protocol, server: Protocol, compatible: bool, card: Card, d: Drawn, first: Bytes, now: U32)
    requires Fit(client, server, d.uid) && Drawable(client, d, first) && TimeAccepted(card.utc, now)
    requires card.clientId == 2
    ensures var user, id, hello := UserOf(server, d.uid), card.connectionId, HelloOf(client, card, d, first);
            var a := Attempt(Fresh(server), NOBODY, hello, now, IDLE);
            var us := UserRun(Idle, 2, map[], [UserEvent(user, Inserts(1, id, 0.0))]);
            var r := Try(server, compatible, 2, us, a);
            var us' := UserRun(Idle, 2, r.tables, [UserEvent(user, Inserts(3, id, IDLE))]);
            r.end.greeted && Try(server, compatible, 2, us', a).end.greeted
  {
    hide HelloOf, Fit, Drawable, TimeAccepted, LetIn, Inserted, UserRun, Refreshed, Good, GuardedCall;
    var user, id, hello := UserOf(server, d.uid), card.connectionId, HelloOf(client, card, d, first);
    var a := Attempt(Fresh(server), NOBODY, hello, now, IDLE);
    assert [] + hello == hello;
    var us := UserRun(Idle, 2, map[], [UserEvent(user, Inserts(1, id, 0.0))]);
    PlaceLost(Idle, user, id, Try(server, compatible, 2, us, a).reply);
    GreetingJudged(client, server, compatible, card, d, first, 2, us, a);
    var us1 := Try(server, compatible, 2, us, a).tables;
    var us2 := UserRun(Idle, 2, us1, [UserEvent(user, Inserts(3, id, IDLE))]);
    GreetingJudged(client, server, compatible, card, d, first, 2, us2, a);
  }
}
