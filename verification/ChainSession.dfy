/**
 * Whole auth_chain connections on values: a client's greeting and writes, a server's writes, and calls with chunks of
 * any size. ServerCall and ClientCall are what the methods of AuthChain.dfy are proved equal to; ChainPair.dfy
 * connects the objects themselves.
 */
module ChainSession {
  import opened ByteStrings
  import opened AuthChain
  import opened ChainCodec
  import opened ChainEnds
  import opened ChainHandshake
  import opened FrameLink
  import opened FrameLoop
  import opened Options
  import opened PaddingTables
  import opened StreamBasics

  // ----- a matching pair of ends -----

  /** The two configurations fit: same primitives, salt, server key and overhead, the server's IV of this stream is the
      client's, and the server's key for the user id sent is the one the client signs with. */
  ghost predicate Fit(client: Config, server: Config, uid: U32) {
    && client.p == server.p && client.salt == server.salt && client.key == server.key
    && client.iv == server.recvIv
    && match client.param
       case Some(user) => KeyIs(server.users, server.key, server.recvIv, uid, user.key)
       case None => KeyIs(server.users, server.key, server.recvIv, uid, client.key)
  }

  ghost predicate GoodPrimitives(p: Primitives) {
    GoodPadding(p) && GoodCipher(p)
  }

  /** All four variants, with the real generator, are good primitives: everything below holds of each of them. */
  lemma VariantsAreGood(p: Primitives, v: Variant, key: Bytes, overhead: nat)
    requires GoodCipher(p)
    ensures GoodPrimitives(WithPadding(p, XorshiftSource(), v, key, overhead))
  {
    hide PadLen, StartPos, XorshiftSource;
    AllVariantsGood(p, XorshiftSource(), v, key, overhead);
    var q := WithPadding(p, XorshiftSource(), v, key, overhead);
    assert q.aesEncrypt == p.aesEncrypt && q.aesDecrypt == p.aesDecrypt;
  }

  function GreetingOf(client: Config, uid: U32, auth: Card, head: Bytes): Greeting
    requires |head| == 4
  {
    Greet(client.p, client.iv + client.key, UserKey(client), client.salt, uid, auth, head)
  }

  function HelloOf(client: Config, uid: U32, auth: Card, head: Bytes): Bytes
    requires |head| == 4
  {
    Hello(client.p, client.iv + client.key, UserKey(client), client.salt, uid, auth, head)
  }

  /** The server waits for the 36 bytes and then takes g from them, whatever follows. */
  ghost predicate Accepts(server: Config, now: U32, hello: Bytes, g: Greeting) {
    && |hello| == HELLO_SIZE
    && (forall w {:trigger JudgeHello(server, w, now, true)} :: w < hello ==> JudgeHello(server, w, now, true) == Wait)
    && (forall more {:trigger hello + more} ::
          JudgeHello(server, hello + more, now, true).Greeted?
            && JudgeHello(server, hello + more, now, true).greeting == g)
  }

  /** Where the two directions start once the server has taken g. */
  function ClientStart(g: Greeting): Side {
    Side(g.clientHash, 1, 0, UNSEEDED)
  }

  function ServerStart(g: Greeting): Side {
    Side(g.serverHash, 1, 0, UNSEEDED)
  }

  /** A server whose configuration fits waits for the greeting and takes from it what the client meant. */
  lemma GreetingAccepted(client: Config, server: Config, uid: U32, auth: Card, head: Bytes, now: U32)
    requires |head| == 4 && Fit(client, server, uid) && GoodCipher(client.p) && TimeAccepted(auth.utc, now)
    ensures Accepts(server, now, HelloOf(client, uid, auth, head), GreetingOf(client, uid, auth, head))
  {
    var g := GreetingOf(client, uid, auth, head);
    var hello := HelloOf(client, uid, auth, head);
    forall more
      ensures JudgeHello(server, hello + more, now, true) == Greeted(g, uid)
    {
      HelloRoundTrip(client.p, server.users, server.key, server.recvIv, UserKey(client), client.salt, uid, auth, head,
                     more);
    }
    forall w | w < hello
      ensures JudgeHello(server, w, now, true) == Wait
    {
      HelloWaits(client.p, server.users, server.key, server.recvIv, UserKey(client), client.salt, uid, auth, head, w);
    }
  }

  lemma GreetingCard(client: Config, uid: U32, auth: Card, head: Bytes)
    requires |head| == 4
    ensures GreetingOf(client, uid, auth, head).card == auth
  {
  }

  /** The user that the server finds in the greeting, whatever follows. */
  lemma GreetingNames(client: Config, server: Config, uid: U32, auth: Card, head: Bytes, more: Bytes,
                      user: Option<U32>)
    requires |head| == 4 && Fit(client, server, uid) && GoodCipher(client.p)
    ensures UserNamed(server, HelloOf(client, uid, auth, head) + more, user)
         == if uid in server.users then Some(uid) else user
  {
    HelloRoundTrip(client.p, server.users, server.key, server.recvIv, UserKey(client), client.salt, uid, auth, head,
                   more);
    NamedWhenRead(server, HelloOf(client, uid, auth, head) + more, user);
  }

  /** The handshake, for what a client has sent and kept: a server whose configuration fits takes from the 36 bytes the
      client's keys, with the client's sending side as its receiving side and the client's receiving side as its
      sending side. */
  lemma HandshakeAgreement(client: Config, server: Config, uid: U32, auth: Card, head: Bytes, now: U32,
                           session: Option<Session>, serverHash: Digest, hello: Bytes)
    requires |head| == 4 && Fit(client, server, uid) && GoodCipher(client.p) && TimeAccepted(auth.utc, now)
    requires GreetingSent(client, uid, auth, head, session, serverHash, hello)
    ensures ServerCall(server, FRESH_SERVER, Call(hello, now, true)) ==
            (ServerEnd(false, true, session, FirstSide(client, uid, auth, head, UNSEEDED),
                       Side(serverHash, 1, 0, UNSEEDED),
                       auth.overhead, []),
             Data([], true))
  {
    var g := GreetingOf(client, uid, auth, head);
    GreetingAccepted(client, server, uid, auth, head, now);
    hide JudgeHello, Turns, GoodCipher;
    assert hello + [] == hello && [] + hello == hello && hello[HELLO_SIZE..] == [];
    TurnWaits(server.p, g.session, ClientStart(g));
    assert Decode(Turns(server.p, g.session), ClientStart(g), []) == Decoded([], ClientStart(g), [], More);
  }

  // ----- one direction -----

  /** The decoder is where it would be had all bytes delivered so far come at once, and has not failed. */
  ghost predicate Linked(p: Primitives, s: Session, start: Side, l: Link<Side, Side>) {
    Consistent(Chain(p, s), start, start, l) && l.verdict == More
  }

  lemma LinkStarts(p: Primitives, s: Session, start: Side)
    ensures Linked(p, s, start, Start(start, start))
  {
    forall d ensures Chain(p, s).step(d, []) == Stuck(More, d) {
      TurnWaits(p, s, d);
    }
    StartConsistent(Chain(p, s), start, start);
  }

  lemma {:induction false} LinkSends(p: Primitives, s: Session, start: Side, l: Link<Side, Side>, msgs: seq<Msg>)
    requires Linked(p, s, start, l) && CanPackAll(Chain(p, s), l.sender, msgs)
    ensures Linked(p, s, start, Apply(Chain(p, s), l, Send(msgs)))
  {
    SendConsistent(Chain(p, s), start, start, l, msgs);
  }

  lemma LinkDelivers(p: Primitives, s: Session, start: Side, l: Link<Side, Side>, n: nat)
    requires GoodPadding(p) && Linked(p, s, start, l) && n <= |l.inFlight|
    ensures Linked(p, s, start, Apply(Chain(p, s), l, Deliver(n)))
  {
    ChainMatched(p, s);
    DeliverConsistent(Chain(p, s), start, start, l, n);
    var k := LinkFacts(p, s, start, Apply(Chain(p, s), l, Deliver(n)));
  }

  /** What has been output are the payloads of the first k messages, with which the decoder is in lock step; and
      nothing is missing when nothing is in flight. */
  lemma LinkFacts(p: Primitives, s: Session, start: Side, l: Link<Side, Side>) returns (k: nat)
    requires GoodPadding(p) && Consistent(Chain(p, s), start, start, l)
    ensures Delivering(Chain(p, s), start, l, k)
  {
    ChainMatched(p, s);
    ChainSizes(p, s);
    k := ConsistentDelivers(Chain(p, s), start, start, l);
  }

  /** The frame number tells how many frames there have been. */
  lemma {:induction false} IdsOfRun(p: Primitives, s: Session, e: Side, msgs: seq<Msg>)
    requires CanPackAll(Chain(p, s), e, msgs)
    ensures AfterAll(Chain(p, s), e, msgs).id == (e.id + |msgs|) % 0x1_0000_0000
    decreases |msgs|
  {
    var c := Chain(p, s);
    if msgs != [] {
      assert c.next(e, msgs[0]).id == Succ32(e.id);
      IdsOfRun(p, s, c.next(e, msgs[0]), msgs[1..]);
      NextIds(e.id, |msgs[1..]|);
      hide Chain, Succ32;
    }
  }

  lemma IdsOfLink(p: Primitives, s: Session, start: Side, l: Link<Side, Side>)
    requires Linked(p, s, start, l)
    ensures l.sender.id == (start.id + |l.sent|) % 0x1_0000_0000
    ensures l.receiver.id == (start.id + |l.got|) % 0x1_0000_0000
  {
    hide Decode, Sent, AfterAll, CanPackAll, Succ32, Chain, Turns;
    TurnsProgress(p, s);
    ChainTurns(p, s);
    IdsOfRun(p, s, start, l.sent);
    var all := Sent(Chain(p, s), start, l.sent);
    IdsOfLoop(Turns(p, s), start, all[..|all| - |l.inFlight|]);
  }

  // ----- client to server -----

  /** The server after the first seen bytes of the greeting hello and, once that is whole, what the link l has
      delivered; wire is what it has not received yet and out what it has output. */
  ghost predicate ServerAt(p: Primitives, g: Greeting, hello: Bytes, seen: nat, l: Link<Side, Side>, wire: Bytes,
                           e: ServerEnd, out: Bytes) {
    && seen <= HELLO_SIZE && |hello| == HELLO_SIZE
    && wire == hello[seen..] + l.inFlight
    && Linked(p, g.session, ClientStart(g), l)
    && if seen < HELLO_SIZE then
         && l.got == [] && l.receiver == ClientStart(g) && l.buf == []
         && e == Greetable(hello[..seen]) && out == []
       else
         && !e.raw && e.greeted && e.session == Some(g.session) && e.overhead == g.card.overhead
         && e.incoming == l.receiver && e.buf == l.buf && out == Flatten(l.got)
  }

  function SeenAfter(seen: nat, n: nat): nat {
    Min(seen + n, HELLO_SIZE)
  }

  function UpAfter(p: Primitives, s: Session, seen: nat, l: Link<Side, Side>, n: nat): Link<Side, Side>
    requires seen + n >= HELLO_SIZE ==> seen + n - HELLO_SIZE <= |l.inFlight|
  {
    if seen + n < HELLO_SIZE then l else Apply(Chain(p, s), l, Deliver(seen + n - HELLO_SIZE))
  }

  /** The loop of a greeted server advances the link. */
  lemma ServerLoopAdvances(p: Primitives, g: Greeting, hello: Bytes, l: Link<Side, Side>, e: ServerEnd, out: Bytes,
                           n: nat, greeted: bool)
    requires GoodPadding(p) && ServerAt(p, g, hello, HELLO_SIZE, l, l.inFlight, e, out) && n <= |l.inFlight|
    ensures var (e', reply) := ServerDecodes(Turns(p, g.session), e, e.buf + l.inFlight[..n], greeted);
            && reply.Data? && e'.outgoing == e.outgoing
            && ServerAt(p, g, hello, HELLO_SIZE, Apply(Chain(p, g.session), l, Deliver(n)), l.inFlight[n..], e',
                        out + reply.out)
  {
    hide Decode, Flatten, Consistent, Chain, GoodPadding;
    LinkDelivers(p, g.session, ClientStart(g), l, n);
    hide Linked;
    var r := Decode(Turns(p, g.session), l.receiver, l.buf + l.inFlight[..n]);
    ChainTurns(p, g.session);
    FlattenAppend(l.got, r.frames);
    assert hello[HELLO_SIZE..] == [];
  }

  lemma ChainTurns(p: Primitives, s: Session)
    ensures Chain(p, s).step == Turns(p, s)
  {
  }

  /** One call of the server, with any number of the bytes on the wire: it hands over data, and the clock and the table
      of clients matter for the greeting alone. */
  lemma ServerAdvances(cfg: Config, c: Call, hello: Bytes, g: Greeting, seen: nat, l: Link<Side, Side>, wire: Bytes,
                       e: ServerEnd, out: Bytes)
    requires GoodPadding(cfg.p) && ServerAt(cfg.p, g, hello, seen, l, wire, e, out) && ServerSane(e) && c.chunk <= wire
    requires seen < HELLO_SIZE ==> c.admitted && Accepts(cfg, c.now, hello, g)
    ensures var n := |c.chunk|;
            var (e', reply) := ServerCall(cfg, e, c);
            && reply.Data?
            && (seen + n >= HELLO_SIZE ==> seen + n - HELLO_SIZE <= |l.inFlight|)
            && ServerAt(cfg.p, g, hello, SeenAfter(seen, n), UpAfter(cfg.p, g.session, seen, l, n), wire[n..], e',
                        out + reply.out)
            && e'.outgoing == if e'.greeted && !e.greeted then ServerStart(g) else e.outgoing
  {
    hide Decode, Flatten, Linked, Chain, Turns, JudgeHello, GoodPadding, ServerDecodes;
    var n := |c.chunk|;
    if seen == HELLO_SIZE {
      assert wire == l.inFlight && c.chunk == wire[..n] by {
        assert hello[seen..] == [];
      }
      ServerLoopAdvances(cfg.p, g, hello, l, e, out, n, false);
    } else if seen + n < HELLO_SIZE {
      GreetingGrows(hello, seen, l.inFlight, wire, n);
      assert e.buf + c.chunk < hello;
    } else {
      ServerGreets(cfg, c, hello, g, seen, l, wire, e);
    }
  }

  /** The call that completes the greeting. */
  lemma ServerGreets(cfg: Config, c: Call, hello: Bytes, g: Greeting, seen: nat, l: Link<Side, Side>, wire: Bytes,
                     e: ServerEnd)
    requires GoodPadding(cfg.p) && ServerAt(cfg.p, g, hello, seen, l, wire, e, []) && ServerSane(e) && c.chunk <= wire
    requires seen < HELLO_SIZE <= seen + |c.chunk| && c.admitted && Accepts(cfg, c.now, hello, g)
    ensures var m := seen + |c.chunk| - HELLO_SIZE;
            var (e', reply) := ServerCall(cfg, e, c);
            && m <= |l.inFlight| && reply.Data? && e'.outgoing == ServerStart(g)
            && ServerAt(cfg.p, g, hello, HELLO_SIZE, Apply(Chain(cfg.p, g.session), l, Deliver(m)), wire[|c.chunk|..],
                        e', [] + reply.out)
  {
    hide Decode, ServerAt, Chain, Turns, Accepts, GoodPadding, ServerDecodes, ServerCall;
    var m := seen + |c.chunk| - HELLO_SIZE;
    var w := Welcomed(e, g).(buf := []);
    GreetingHere(cfg.p, g, hello, seen, l, wire, e, |c.chunk|);
    TakesGreeting(cfg, e, c, hello, g, l.inFlight[..m]);
    assert [] + l.inFlight[..m] == l.inFlight[..m];
    ServerLoopAdvances(cfg.p, g, hello, l, w, [], m, true);
    DecodesFrom(Turns(cfg.p, g.session), Welcomed(e, g), w, l.inFlight[..m]);
  }

  /** What has arrived with the call that completes the greeting, and where the server is once it has taken it. */
  lemma GreetingHere(p: Primitives, g: Greeting, hello: Bytes, seen: nat, l: Link<Side, Side>, wire: Bytes,
                     e: ServerEnd, n: nat)
    requires ServerAt(p, g, hello, seen, l, wire, e, []) && seen < HELLO_SIZE <= seen + n && n <= |wire|
    ensures var m := seen + n - HELLO_SIZE;
            && m <= |l.inFlight| && e.buf + wire[..n] == hello + l.inFlight[..m] && wire[n..] == l.inFlight[m..]
    ensures !e.raw && !e.greeted && Welcomed(e, g).outgoing == ServerStart(g)
    ensures ServerAt(p, g, hello, HELLO_SIZE, l, l.inFlight, Welcomed(e, g).(buf := []), [])
  {
    hide Linked;
    GreetingComplete(hello, seen, l.inFlight, wire, n);
    assert hello[HELLO_SIZE..] == [] && [] + l.inFlight == l.inFlight && Flatten([]) == [];
  }

  /** With all of a greeting, the server takes it and decodes what follows. */
  lemma TakesGreeting(cfg: Config, e: ServerEnd, c: Call, hello: Bytes, g: Greeting, rest: Bytes)
    requires !e.raw && !e.greeted && c.admitted && Accepts(cfg, c.now, hello, g) && e.buf + c.chunk == hello + rest
    ensures ServerCall(cfg, e, c) == ServerDecodes(Turns(cfg.p, g.session), Welcomed(e, g), rest, true)
  {
    hide JudgeHello, Turns, ServerDecodes;
    BehindGreeting(hello, rest);
    assert JudgeHello(cfg, e.buf + c.chunk, c.now, true).Greeted?;
  }

  /** The loop gets what it decodes as an argument. */
  lemma DecodesFrom(step: Stepper<Side>, e: ServerEnd, e': ServerEnd, received: Bytes)
    requires e' == e.(buf := [])
    ensures ServerDecodes(step, e, received, true) == ServerDecodes(step, e', received, true)
  {
  }

  // ----- runs of calls -----

  function ServerRun(cfg: Config, calls: seq<Call>): (r: (ServerEnd, seq<Reply>))
    ensures ServerSane(r.0)
  {
    if calls == [] then (FRESH_SERVER, [])
    else
      var (e, replies) := ServerRun(cfg, calls[..|calls| - 1]);
      var (e', reply) := ServerCall(cfg, e, calls[|calls| - 1]);
      (e', replies + [reply])
  }

  /** The calls that come before the greeting is whole find the clock right and the connection id admitted. */
  predicate Timely(auth: Card, calls: seq<Call>) {
    forall i :: 0 <= i < |calls| && |Received(calls[..i])| < HELLO_SIZE ==>
      TimeAccepted(auth.utc, calls[i].now) && calls[i].admitted
  }

  /** Where the calls have brought a fresh server, with rest still to come. */
  ghost predicate ServerRunsTo(cfg: Config, hello: Bytes, g: Greeting, calls: seq<Call>, rest: Bytes, msgs: seq<Msg>,
                               seen: nat, l: Link<Side, Side>) {
    var (e, replies) := ServerRun(cfg, calls);
    && AllData(replies) && l.sent == msgs && seen == Min(|Received(calls)|, HELLO_SIZE)
    && ServerAt(cfg.p, g, hello, seen, l, rest, e, Output(replies))
  }

  lemma ServerOneMore(cfg: Config, hello: Bytes, g: Greeting, calls: seq<Call>, rest: Bytes, msgs: seq<Msg>,
                      seen: nat, l: Link<Side, Side>)
    requires GoodPadding(cfg.p) && calls != []
    requires var c := calls[|calls| - 1];
             && ServerRunsTo(cfg, hello, g, calls[..|calls| - 1], c.chunk + rest, msgs, seen, l)
             && (seen < HELLO_SIZE ==> c.admitted && Accepts(cfg, c.now, hello, g))
    ensures var n := |calls[|calls| - 1].chunk|;
            && (seen + n >= HELLO_SIZE ==> seen + n - HELLO_SIZE <= |l.inFlight|)
            && ServerRunsTo(cfg, hello, g, calls, rest, msgs, SeenAfter(seen, n), UpAfter(cfg.p, g.session, seen, l, n))
  {
    hide ServerAt, ServerCall, Accepts, GoodPadding, Chain;
    var init, c := calls[..|calls| - 1], calls[|calls| - 1];
    var (e, replies) := ServerRun(cfg, init);
    ServerAdvances(cfg, c, hello, g, seen, l, c.chunk + rest, e, Output(replies));
    assert (c.chunk + rest)[|c.chunk|..] == rest;
    OutputOneMore(replies, ServerCall(cfg, e, c).1);
    hide Output;
  }

  /** The calls that come before the greeting is whole find a server that accepts it. */
  ghost predicate Welcoming(cfg: Config, hello: Bytes, g: Greeting, calls: seq<Call>) {
    forall i :: 0 <= i < |calls| && |Received(calls[..i])| < HELLO_SIZE ==>
      calls[i].admitted && Accepts(cfg, calls[i].now, hello, g)
  }

  /** A run of calls on the bytes of a greeting and frames keeps to the link. */
  lemma ServerRunAt(cfg: Config, hello: Bytes, g: Greeting, l0: Link<Side, Side>, calls: seq<Call>, rest: Bytes)
    returns (seen: nat, l: Link<Side, Side>)
    requires GoodPadding(cfg.p) && |hello| == HELLO_SIZE && Welcoming(cfg, hello, g, calls)
    requires Linked(cfg.p, g.session, ClientStart(g), l0) && l0.got == [] && l0.receiver == ClientStart(g)
             && l0.buf == []
    requires Received(calls) + rest == hello + l0.inFlight
    ensures ServerRunsTo(cfg, hello, g, calls, rest, l0.sent, seen, l)
    decreases |calls|
  {
    hide ServerRunsTo, Linked, Chain, GoodPadding, Accepts;
    if calls == [] {
      seen, l := 0, l0;
      ServerRunStarts(cfg, hello, g, l0, rest);
    } else {
      var init, c := calls[..|calls| - 1], calls[|calls| - 1];
      WelcomingBefore(cfg, hello, g, calls);
      assert (Received(init) + c.chunk) + rest == Received(init) + (c.chunk + rest);
      seen, l := ServerRunAt(cfg, hello, g, l0, init, c.chunk + rest);
      SeenOfRun(cfg, hello, g, init, c.chunk + rest, l0.sent, seen, l);
      ServerOneMore(cfg, hello, g, calls, rest, l0.sent, seen, l);
      seen, l := SeenAfter(seen, |c.chunk|), UpAfter(cfg.p, g.session, seen, l, |c.chunk|);
    }
  }

  lemma WelcomingBefore(cfg: Config, hello: Bytes, g: Greeting, calls: seq<Call>)
    requires calls != [] && Welcoming(cfg, hello, g, calls)
    ensures Welcoming(cfg, hello, g, calls[..|calls| - 1])
  {
    hide Accepts;
    var init := calls[..|calls| - 1];
    forall i | 0 <= i < |init| && |Received(init[..i])| < HELLO_SIZE
      ensures init[i].admitted && Accepts(cfg, init[i].now, hello, g)
    {
      assert init[..i] == calls[..i];
    }
  }

  lemma ServerRunStarts(cfg: Config, hello: Bytes, g: Greeting, l: Link<Side, Side>, rest: Bytes)
    requires Linked(cfg.p, g.session, ClientStart(g), l) && l.got == [] && l.receiver == ClientStart(g) && l.buf == []
    requires |hello| == HELLO_SIZE && Received([]) + rest == hello + l.inFlight
    ensures ServerRunsTo(cfg, hello, g, [], rest, l.sent, 0, l)
  {
    assert hello[..0] == [] && hello[0..] == hello && [] + rest == rest;
  }

  lemma {:induction false} SeenOfRun(cfg: Config, hello: Bytes, g: Greeting, calls: seq<Call>, rest: Bytes,
                                     msgs: seq<Msg>, seen: nat, l: Link<Side, Side>)
    requires ServerRunsTo(cfg, hello, g, calls, rest, msgs, seen, l)
    ensures seen == Min(|Received(calls)|, HELLO_SIZE)
  {
  }

  lemma TimelyIsWelcoming(client: Config, server: Config, uid: U32, auth: Card, head: Bytes, calls: seq<Call>)
    requires |head| == 4 && Fit(client, server, uid) && GoodCipher(client.p) && Timely(auth, calls)
    ensures Welcoming(server, HelloOf(client, uid, auth, head), GreetingOf(client, uid, auth, head), calls)
  {
    hide Accepts, GoodCipher, Fit;
    forall i | 0 <= i < |calls| && |Received(calls[..i])| < HELLO_SIZE
      ensures calls[i].admitted
      ensures Accepts(server, calls[i].now, HelloOf(client, uid, auth, head), GreetingOf(client, uid, auth, head))
    {
      GreetingAccepted(client, server, uid, auth, head, calls[i].now);
    }
  }

  /** Client to server, from the first byte: handshake, lock step and delivery, for every choice of writes, padding and
      chunks. No call raises. */
  lemma {:induction false} ClientToServer(client: Config, server: Config, uid: U32, auth: Card, head: Bytes,
                                          msgs: seq<Msg>, calls: seq<Call>)
    requires |head| == 4 && Fit(client, server, uid) && GoodPrimitives(client.p) && Timely(auth, calls)
    requires var start := FirstSide(client, uid, auth, head, UNSEEDED);
             var c := Chain(client.p, GreetingOf(client, uid, auth, head).session);
             CanPackAll(c, start, msgs) && Received(calls) <= HelloOf(client, uid, auth, head) + Sent(c, start, msgs)
    ensures var start := FirstSide(client, uid, auth, head, UNSEEDED);
            var s := GreetingOf(client, uid, auth, head).session;
            var (e, replies) := ServerRun(server, calls);
            && AllData(replies) && Output(replies) <= Flatten(Texts(msgs))
            && (Received(calls) == HelloOf(client, uid, auth, head) + Sent(Chain(client.p, s), start, msgs) ==>
                  Output(replies) == Flatten(Texts(msgs)))
            && (|Received(calls)| >= HELLO_SIZE ==>
                  e.session == Some(s) && InLockStep(client.p, s, start, msgs, e.incoming, Output(replies)))
  {
    var g := GreetingOf(client, uid, auth, head);
    var hello := HelloOf(client, uid, auth, head);
    TimelyIsWelcoming(client, server, uid, auth, head, calls);
    ServerDelivers(server, hello, g, msgs, calls);
  }

  /** The decoder has output the payloads of the first messages, and agrees with the encoder as it was after those. */
  ghost predicate InLockStep(p: Primitives, s: Session, start: Side, msgs: seq<Msg>, d: Side, out: Bytes) {
    exists k: nat {:trigger msgs[..k]} :: k <= |msgs| && out == Flatten(Texts(msgs[..k]))
                                         && LockStep(AfterAll(Chain(p, s), start, msgs[..k]), d)
  }

  lemma {:induction false} ServerDelivers(cfg: Config, hello: Bytes, g: Greeting, msgs: seq<Msg>, calls: seq<Call>)
    requires GoodPadding(cfg.p) && |hello| == HELLO_SIZE && Welcoming(cfg, hello, g, calls)
    requires var c := Chain(cfg.p, g.session);
             CanPackAll(c, ClientStart(g), msgs) && Received(calls) <= hello + Sent(c, ClientStart(g), msgs)
    ensures var (e, replies) := ServerRun(cfg, calls);
            && AllData(replies) && Output(replies) <= Flatten(Texts(msgs))
            && (Received(calls) == hello + Sent(Chain(cfg.p, g.session), ClientStart(g), msgs) ==>
                  Output(replies) == Flatten(Texts(msgs)))
            && (|Received(calls)| >= HELLO_SIZE ==>
                  && e.session == Some(g.session)
                  && InLockStep(cfg.p, g.session, ClientStart(g), msgs, e.incoming, Output(replies)))
  {
    hide Welcoming, GoodPadding, CanPackAll, Sent, Chain, Flatten, Texts, ServerRun, Output, Linked;
    var c := Chain(cfg.p, g.session);
    var l0 := WholeRun(cfg.p, g.session, ClientStart(g), msgs);
    var all := hello + Sent(c, ClientStart(g), msgs);
    var rest := all[|Received(calls)|..];
    var seen, l := ServerRunAt(cfg, hello, g, l0, calls, rest);
    var (e, replies) := ServerRun(cfg, calls);
    if seen == HELLO_SIZE {
      var k := LinkedFacts(cfg.p, g.session, ClientStart(g), l);
      assert hello[seen..] + l.inFlight == l.inFlight;
    } else {
      EmptyIsPrefix(msgs);
    }
  }

  lemma EmptyIsPrefix(msgs: seq<Msg>)
    ensures [] <= Flatten(Texts(msgs))
  {
  }

  lemma LinkedFacts(p: Primitives, s: Session, start: Side, l: Link<Side, Side>) returns (k: nat)
    requires GoodPadding(p) && Linked(p, s, start, l)
    ensures k <= |l.sent| && l.got == Texts(l.sent[..k])
    ensures Flatten(l.got) <= Flatten(Texts(l.sent)) && (l.inFlight == [] ==> Flatten(l.got) == Flatten(Texts(l.sent)))
    ensures InLockStep(p, s, start, l.sent, l.receiver, Flatten(l.got))
  {
    k := LinkFacts(p, s, start, l);
    assert LockStep(AfterAll(Chain(p, s), start, l.sent[..k]), l.receiver);
  }

  /** A link on which everything has been sent and nothing delivered. */
  lemma WholeRun(p: Primitives, s: Session, start: Side, msgs: seq<Msg>) returns (l: Link<Side, Side>)
    requires CanPackAll(Chain(p, s), start, msgs)
    ensures Linked(p, s, start, l) && l.got == [] && l.receiver == start && l.buf == []
    ensures l.sent == msgs && l.inFlight == Sent(Chain(p, s), start, msgs)
  {
    hide Linked, Chain, CanPackAll, Sent, AfterAll;
    LinkStarts(p, s, start);
    l := Apply(Chain(p, s), Start(start, start), Send(msgs));
    LinkSends(p, s, start, Start(start, start), msgs);
    assert [] + msgs == msgs && [] + Sent(Chain(p, s), start, msgs) == Sent(Chain(p, s), start, msgs);
  }

  // ----- server to client -----

  /** What a server's writes are cut into: the MSS goes before the first. */
  function ServerTexts(unit: nat, mss: nat, writes: seq<Bytes>): seq<Bytes>
    requires unit > 0 && writes != []
  {
    Split(unit, WithMss(1, mss, writes[0])) + LaterTexts(unit, writes[1..])
  }

  function LaterTexts(unit: nat, writes: seq<Bytes>): seq<Bytes>
    requires unit > 0
  {
    if writes == [] then [] else Split(unit, writes[0]) + LaterTexts(unit, writes[1..])
  }

  lemma {:induction false} LaterTextsFlatten(unit: nat, writes: seq<Bytes>)
    requires unit > 0
    ensures Flatten(LaterTexts(unit, writes)) == Flatten(writes)
  {
    if writes != [] {
      LaterTextsFlatten(unit, writes[1..]);
      FlattenAppend(Split(unit, writes[0]), LaterTexts(unit, writes[1..]));
      SplitFlatten(unit, writes[0]);
    }
  }

  lemma {:induction false} ServerTextsFlatten(unit: nat, mss: nat, writes: seq<Bytes>)
    requires unit > 1 && writes != []
    ensures ServerTexts(unit, mss, writes) != [] && |ServerTexts(unit, mss, writes)[0]| >= 2
    ensures Flatten(ServerTexts(unit, mss, writes)) == Le16(Min(mss, 1500)) + Flatten(writes)
  {
    var first := WithMss(1, mss, writes[0]);
    LaterTextsFlatten(unit, writes[1..]);
    SplitFlatten(unit, first);
    FlattenAppend(Split(unit, first), LaterTexts(unit, writes[1..]));
  }

  /** The MSS comes off the front of everything the server wrote. */
  lemma {:induction false} WithoutMss(frames: seq<Bytes>, mss: nat, written: Bytes)
    requires frames != [] && |frames[0]| >= 2 && Flatten(frames) <= Le16(Min(mss, 1500)) + written
    ensures Flatten(frames)[2..] <= written && UnLe16(frames[0][..2]) == Min(mss, 1500)
    ensures Flatten(frames) == Le16(Min(mss, 1500)) + written ==> Flatten(frames)[2..] == written
  {
    var all := Le16(Min(mss, 1500)) + written;
    assert Flatten(frames) == frames[0] + Flatten(frames[1..]);
    assert Flatten(frames)[..2] == frames[0][..2];
    assert Flatten(frames)[..2] == all[..2] == Le16(Min(mss, 1500));
    assert all[2..] == written;
  }

  /** The client after what the link l has delivered: the MSS, which it takes off frame 1, included. */
  ghost predicate ClientAt(p: Primitives, g: Greeting, mss: nat, l: Link<Side, Side>, e: ClientEnd, out: Bytes) {
    && Linked(p, g.session, ServerStart(g), l) && |l.sent| <= 0x1_0000_0000
    && (l.sent != [] ==> |l.sent[0].plain| >= 2)
    && !e.raw && e.session == Some(g.session) && e.incoming == l.receiver && e.buf == l.buf
    && !Short(1, l.got) && out == ClientText(1, l.got) && e.mss == MssAfter(1, l.got, mss)
  }

  /** A client that has written, and received nothing yet. */
  function Waiting(g: Greeting, mss: nat): ClientEnd {
    ClientEnd(false, Some(g.session), ServerStart(g), [], mss)
  }

  lemma ClientStarts(p: Primitives, g: Greeting, mss: nat, l: Link<Side, Side>)
    requires Linked(p, g.session, ServerStart(g), l) && |l.sent| <= 0x1_0000_0000
             && (l.sent != [] ==> |l.sent[0].plain| >= 2)
    requires l.got == [] && l.receiver == ServerStart(g) && l.buf == []
    ensures ClientAt(p, g, mss, l, Waiting(g, mss), [])
  {
    hide Linked;
  }

  /** The frames of one call, after those before it: frame 1 is among the first of them. */
  lemma FramesTaken(got: seq<Bytes>, more: seq<Bytes>, mss: nat)
    requires |got| + |more| <= 0x1_0000_0000 && !Short(1, got + more)
    ensures var id := (1 + |got|) % 0x1_0000_0000;
            && !Short(1, got) && !Short(id, more) && |more| <= Room(id)
            && ClientText(1, got) + ClientText(id, more) == ClientText(1, got + more)
            && MssAfter(id, more, MssAfter(1, got, mss)) == MssAfter(1, got + more, mss)
  {
    if got == [] {
      assert got + more == more;
      assert [] + ClientText(1, more) == ClientText(1, more);
    } else {
      TextsOfTwo(1, got, more, mss);
    }
  }

  /** What has been delivered begins as what was sent does. */
  lemma GotBegins(p: Primitives, s: Session, start: Side, l: Link<Side, Side>)
    requires GoodPadding(p) && Linked(p, s, start, l)
    ensures |l.got| <= |l.sent| && (l.got != [] ==> l.got[0] == l.sent[0].plain)
  {
    hide Chain, GoodPadding, Linked, InLockStep;
    var k := LinkedFacts(p, s, start, l);
    if k > 0 {
      assert Texts(l.sent[..k])[0] == l.sent[0].plain;
    }
  }

  /** One call of the client, with any number of the bytes in flight. */
  lemma ClientAdvances(p: Primitives, g: Greeting, mss: nat, l: Link<Side, Side>, e: ClientEnd, out: Bytes, n: nat)
    requires GoodPadding(p) && ClientAt(p, g, mss, l, e, out) && n <= |l.inFlight|
    ensures var (e', reply) := ClientCall(p, e, l.inFlight[..n]);
            && reply.Data? && ClientAt(p, g, mss, Apply(Chain(p, g.session), l, Deliver(n)), e', out + reply.out)
  {
    hide Decode, Flatten, Consistent, Chain, Turns, GoodPadding, ClientText, MssAfter, Short, ClientDecodes, Room;
    var l' := Apply(Chain(p, g.session), l, Deliver(n));
    ChainTurns(p, g.session);
    LinkDelivers(p, g.session, ServerStart(g), l, n);
    GotBegins(p, g.session, ServerStart(g), l');
    IdsOfLink(p, g.session, ServerStart(g), l);
    hide Linked;
    var r := Decode(Turns(p, g.session), e.incoming, e.buf + l.inFlight[..n]);
    assert l'.got == l.got + r.frames;
    NotShort(l'.got);
    FramesTaken(l.got, r.frames, mss);
    TurnsProgress(p, g.session);
    ClientDecodesTo(Turns(p, g.session), e, e.buf + l.inFlight[..n]);
  }

  lemma NotShort(frames: seq<Bytes>)
    requires frames != [] ==> |frames[0]| >= 2
    ensures !Short(1, frames)
  {
  }

  /** What the writes of a server come to on its link: the MSS and the bytes written. */
  ghost predicate Wrote(l: Link<Side, Side>, mss: nat, written: Bytes) {
    if l.sent == [] then written == [] else Flatten(Texts(l.sent)) == Le16(Min(mss, 1500)) + written
  }

  /** The client has output a prefix of what the server wrote; and all of it, with the MSS, once nothing is in
      flight. */
  lemma ClientHasWritten(p: Primitives, g: Greeting, mss0: nat, mss: nat, l: Link<Side, Side>, e: ClientEnd,
                         out: Bytes, written: Bytes)
    requires GoodPadding(p) && ClientAt(p, g, mss0, l, e, out) && Wrote(l, mss, written)
    ensures out <= written
    ensures l.inFlight == [] ==> out == written
    ensures l.got != [] ==> e.mss == Min(mss, 1500)
    ensures l.inFlight == [] && l.sent != [] ==> l.got != []
  {
    hide Chain, GoodPadding, Linked, InLockStep;
    var k := LinkedFacts(p, g.session, ServerStart(g), l);
    if l.sent == [] {
      assert l.got == [];
    } else if l.got == [] {
      assert Flatten(l.got) == [];
    } else {
      WithoutMss(l.got, mss, written);
    }
  }

  function ClientRun(p: Primitives, e: ClientEnd, chunks: seq<Bytes>): (ClientEnd, seq<Reply>) {
    if chunks == [] then (e, [])
    else
      var (e1, replies) := ClientRun(p, e, chunks[..|chunks| - 1]);
      var (e2, reply) := ClientCall(p, e1, chunks[|chunks| - 1]);
      (e2, replies + [reply])
  }

  ghost predicate ClientRunsTo(p: Primitives, g: Greeting, mss: nat, chunks: seq<Bytes>, rest: Bytes, msgs: seq<Msg>,
                               l: Link<Side, Side>) {
    var (e, replies) := ClientRun(p, Waiting(g, mss), chunks);
    AllData(replies) && l.sent == msgs && l.inFlight == rest && ClientAt(p, g, mss, l, e, Output(replies))
  }

  lemma ClientOneMore(p: Primitives, g: Greeting, mss: nat, chunks: seq<Bytes>, rest: Bytes, msgs: seq<Msg>,
                      l: Link<Side, Side>)
    requires GoodPadding(p) && chunks != []
    requires ClientRunsTo(p, g, mss, chunks[..|chunks| - 1], chunks[|chunks| - 1] + rest, msgs, l)
    ensures |chunks[|chunks| - 1]| <= |l.inFlight|
    ensures ClientRunsTo(p, g, mss, chunks, rest, msgs, Apply(Chain(p, g.session), l, Deliver(|chunks[|chunks| - 1]|)))
  {
    hide ClientAt, ClientCall, GoodPadding, Chain, Decode;
    var init, last := chunks[..|chunks| - 1], chunks[|chunks| - 1];
    var (e, replies) := ClientRun(p, Waiting(g, mss), init);
    assert (last + rest)[..|last|] == last && (last + rest)[|last|..] == rest;
    ClientAdvances(p, g, mss, l, e, Output(replies), |last|);
    OutputOneMore(replies, ClientCall(p, e, last).1);
    LinkOf(p, g, mss, l, e, Output(replies));
    hide Output;
  }

  lemma LinkOf(p: Primitives, g: Greeting, mss: nat, l: Link<Side, Side>, e: ClientEnd, out: Bytes)
    requires ClientAt(p, g, mss, l, e, out)
    ensures l.verdict == More
  {
  }

  lemma ClientRunAt(p: Primitives, g: Greeting, mss: nat, msgs: seq<Msg>, chunks: seq<Bytes>, rest: Bytes)
    returns (l: Link<Side, Side>)
    requires GoodPadding(p) && |msgs| <= 0x1_0000_0000 && (msgs != [] ==> |msgs[0].plain| >= 2)
    requires CanPackAll(Chain(p, g.session), ServerStart(g), msgs)
    requires Flatten(chunks) + rest == Sent(Chain(p, g.session), ServerStart(g), msgs)
    ensures ClientRunsTo(p, g, mss, chunks, rest, msgs, l)
    decreases |chunks|
  {
    hide ClientAt, GoodPadding, Chain, CanPackAll, Sent, Linked;
    if chunks == [] {
      l := WholeRun(p, g.session, ServerStart(g), msgs);
      ClientStarts(p, g, mss, l);
      assert [] + rest == rest;
    } else {
      hide ClientRunsTo;
      var init, last := chunks[..|chunks| - 1], chunks[|chunks| - 1];
      FlattenLast(chunks);
      assert (Flatten(init) + last) + rest == Flatten(init) + (last + rest);
      l := ClientRunAt(p, g, mss, msgs, init, last + rest);
      ClientOneMore(p, g, mss, chunks, rest, msgs, l);
      l := Apply(Chain(p, g.session), l, Deliver(|last|));
    }
  }

  /** The client has output the payloads of the first messages without the MSS, and agrees with the server as it was
      after those. */
  ghost predicate ClientInLockStep(p: Primitives, g: Greeting, msgs: seq<Msg>, d: Side, out: Bytes) {
    exists k: nat {:trigger msgs[..k]} ::
      && k <= |msgs| && !Short(1, Texts(msgs[..k])) && out == ClientText(1, Texts(msgs[..k]))
      && LockStep(AfterAll(Chain(p, g.session), ServerStart(g), msgs[..k]), d)
  }

  lemma ClientAtLockStep(p: Primitives, g: Greeting, mss: nat, l: Link<Side, Side>, e: ClientEnd, out: Bytes)
    requires GoodPadding(p) && ClientAt(p, g, mss, l, e, out)
    ensures ClientInLockStep(p, g, l.sent, e.incoming, out)
  {
    hide GoodPadding, Consistent, ClientText, MssAfter;
    var k := LinkFacts(p, g.session, ServerStart(g), l);
    hide Chain;
    assert l.got == Texts(l.sent[..k]);
  }

  /** Server to client, from the first byte: lock step and delivery, for every list of writes, every usable unit, every
      padding and every chunking. No call raises. */
  lemma {:induction false} ServerToClient(p: Primitives, g: Greeting, unit: nat, mss: nat, writes: seq<Bytes>,
                                          msgs: seq<Msg>, mss0: nat, chunks: seq<Bytes>)
    requires GoodPadding(p) && unit > 1 && writes != [] && |msgs| <= 0x1_0000_0000
    requires Texts(msgs) == ServerTexts(unit, mss, writes)
    requires CanPackAll(Chain(p, g.session), ServerStart(g), msgs)
    requires Flatten(chunks) <= Sent(Chain(p, g.session), ServerStart(g), msgs)
    ensures var (e, replies) := ClientRun(p, Waiting(g, mss0), chunks);
            && AllData(replies) && Output(replies) <= Flatten(writes)
            && (Flatten(chunks) == Sent(Chain(p, g.session), ServerStart(g), msgs) ==>
                  Output(replies) == Flatten(writes) && e.mss == Min(mss, 1500))
            && ClientInLockStep(p, g, msgs, e.incoming, Output(replies))
  {
    hide GoodPadding, Chain, CanPackAll, Sent, Linked, ClientRun, Output, Flatten, ServerTexts, ClientText, MssAfter;
    ServerTextsFlatten(unit, mss, writes);
    assert msgs[0].plain == Texts(msgs)[0];
    var all := Sent(Chain(p, g.session), ServerStart(g), msgs);
    var rest := all[|Flatten(chunks)|..];
    var l := ClientRunAt(p, g, mss0, msgs, chunks, rest);
    var (e, replies) := ClientRun(p, Waiting(g, mss0), chunks);
    ClientHasWritten(p, g, mss0, mss, l, e, Output(replies), Flatten(writes));
    ClientAtLockStep(p, g, mss0, l, e, Output(replies));
  }

  // ----- a unit of one byte -----

  /** The client while the first frame is incomplete. */
  ghost predicate BeforeFirst(step: Stepper<Side>, start: Side, mss: nat, e: ClientEnd, w: Bytes) {
    && !e.raw && e.buf == w && e.mss == mss && e.incoming.id == 1
    && Decode(step, start, w) == Decoded([], e.incoming, w, More)
  }

  function FirstFrame(p: Primitives, g: Greeting, msgs: seq<Msg>): Bytes
    requires msgs != [] && Packable(p, ServerStart(g), msgs[0])
  {
    Frame(p, g.session, ServerStart(g), msgs[0].plain, msgs[0].rnd)
  }

  /** How many frames the first w bytes complete: none before the end of the first. */
  lemma {:induction false} FirstFrameCounts(p: Primitives, g: Greeting, msgs: seq<Msg>, w: Bytes)
    requires GoodPadding(p) && msgs != [] && |msgs[0].plain| == 1 && Packable(p, ServerStart(g), msgs[0])
    requires CanPackAll(Chain(p, g.session), ServerStart(g), msgs)
             && w <= Sent(Chain(p, g.session), ServerStart(g), msgs)
    ensures var r := Decode(Turns(p, g.session), ServerStart(g), w);
            && |r.frames| <= |msgs| && r.verdict == More
            && (if |w| >= |FirstFrame(p, g, msgs)| then r.frames != [] && r.frames[0] == msgs[0].plain
                else r.frames == [] && r.rest == w)
  {
    hide GoodPadding, Turns, DecodeStep, Frame, AfterPack, AfterFrame, Decode;
    var c := Chain(p, g.session);
    var packets := Packets(c, ServerStart(g), msgs);
    assert packets[0].wire == FirstFrame(p, g, msgs) && c.least == 4;
    assert |FirstFrame(p, g, msgs)| > 4;
    ChainMatched(p, g.session);
    ChainTurns(p, g.session);
    hide Chain, Matched;
    LockStepDelivery(c, ServerStart(g), ServerStart(g), msgs, w);
    var k := Complete(4, packets, |w|);
    if k > 0 {
      assert Texts(msgs[..k])[0] == msgs[0].plain;
    } else {
      assert Sent(c, ServerStart(g), msgs[..0]) == [];
    }
  }

  /** One call of a client that the first frame, of one byte, has not reached yet. */
  lemma {:induction false} OneByteCall(p: Primitives, g: Greeting, msgs: seq<Msg>, mss: nat, e: ClientEnd, w: Bytes,
                                       chunk: Bytes)
    requires GoodPadding(p) && msgs != [] && |msgs| <= 0x1_0000_0000 && |msgs[0].plain| == 1
    requires Packable(p, ServerStart(g), msgs[0]) && CanPackAll(Chain(p, g.session), ServerStart(g), msgs)
    requires w + chunk <= Sent(Chain(p, g.session), ServerStart(g), msgs)
    requires BeforeFirst(Turns(p, g.session), ServerStart(g), mss, e, w) && e.session == Some(g.session)
    ensures var (e', reply) := ClientCall(p, e, chunk);
            if |w + chunk| >= |FirstFrame(p, g, msgs)| then reply == Raised
            else reply == Data([], false) && e'.session == e.session
                 && BeforeFirst(Turns(p, g.session), ServerStart(g), mss, e', w + chunk)
  {
    hide GoodPadding, Decode, Turns, Packable, CanPackAll, Chain, Sent, ClientDecodes, FirstFrame, Flatten;
    var step := Turns(p, g.session);
    TurnsRegular(p, g.session);
    TurnsProgress(p, g.session);
    DecodeChunks(step, ServerStart(g), w, chunk);
    FirstFrameCounts(p, g, msgs, w + chunk);
    var r := Decode(step, e.incoming, w + chunk);
    assert [] + r.frames == r.frames;
    ClientDecodesTo(step, e, w + chunk);
    if r.frames == [] {
      IdsOfLoop(step, e.incoming, w + chunk);
      assert Flatten([]) == [] by {
        FlattenNone();
      }
    }
  }

  lemma FlattenNone()
    ensures Flatten([]) == []
  {
  }

  predicate AnyRaised(replies: seq<Reply>) {
    exists i :: 0 <= i < |replies| && replies[i].Raised?
  }

  /** A client to which a server sends a first frame of one byte: it outputs nothing before that frame is complete, and
      raises in the call that completes it, whatever the chunks. */
  lemma {:induction false} OneByteRun(p: Primitives, g: Greeting, msgs: seq<Msg>, mss: nat, chunks: seq<Bytes>)
    requires GoodPadding(p) && msgs != [] && |msgs| <= 0x1_0000_0000 && |msgs[0].plain| == 1
    requires Packable(p, ServerStart(g), msgs[0]) && CanPackAll(Chain(p, g.session), ServerStart(g), msgs)
    requires Flatten(chunks) <= Sent(Chain(p, g.session), ServerStart(g), msgs)
    ensures var (e, replies) := ClientRun(p, Waiting(g, mss), chunks);
            if |Flatten(chunks)| >= |FirstFrame(p, g, msgs)| then AnyRaised(replies)
            else AllData(replies) && Output(replies) == [] && e.session == Some(g.session)
                 && BeforeFirst(Turns(p, g.session), ServerStart(g), mss, e, Flatten(chunks))
    decreases |chunks|
  {
    hide GoodPadding, Turns, Packable, CanPackAll, Chain, Sent, ClientCall, FirstFrame, BeforeFirst;
    if chunks == [] {
      OneByteStart(p, g, msgs, mss);
    } else {
      var init, last := chunks[..|chunks| - 1], chunks[|chunks| - 1];
      FlattenLast(chunks);
      OneByteRun(p, g, msgs, mss, init);
      var (e, replies) := ClientRun(p, Waiting(g, mss), init);
      var reply := ClientCall(p, e, last).1;
      if |Flatten(init)| < |FirstFrame(p, g, msgs)| {
        OneByteCall(p, g, msgs, mss, e, Flatten(init), last);
        OutputOneMore(replies, reply);
        assert (replies + [reply])[|replies|] == reply;
      } else {
        RaisedBefore(replies, reply);
      }
    }
  }

  lemma RaisedBefore(replies: seq<Reply>, r: Reply)
    requires AnyRaised(replies)
    ensures AnyRaised(replies + [r])
  {
    var i :| 0 <= i < |replies| && replies[i].Raised?;
    assert (replies + [r])[i].Raised?;
  }

  lemma OneByteStart(p: Primitives, g: Greeting, msgs: seq<Msg>, mss: nat)
    requires msgs != [] && Packable(p, ServerStart(g), msgs[0])
    ensures |FirstFrame(p, g, msgs)| > 0
    ensures BeforeFirst(Turns(p, g.session), ServerStart(g), mss, Waiting(g, mss), [])
  {
    TurnWaits(p, g.session, ServerStart(g));
  }

  /** What a usable unit is: for writes cut into units of one byte the client raises once the first frame has arrived,
      and in no other case. */
  lemma {:induction false} OneByteRaises(p: Primitives, g: Greeting, unit: nat, mss: nat, writes: seq<Bytes>,
                                         msgs: seq<Msg>, mss0: nat, chunks: seq<Bytes>)
    requires GoodPadding(p) && unit > 0 && writes != [] && 0 < |msgs| <= 0x1_0000_0000
    requires Texts(msgs) == ServerTexts(unit, mss, writes) && Packable(p, ServerStart(g), msgs[0])
    requires CanPackAll(Chain(p, g.session), ServerStart(g), msgs)
    requires Flatten(chunks) <= Sent(Chain(p, g.session), ServerStart(g), msgs)
    ensures AnyRaised(ClientRun(p, Waiting(g, mss0), chunks).1)
       <==> unit == 1 && |Flatten(chunks)| >= |FirstFrame(p, g, msgs)|
  {
    hide GoodPadding, Chain, CanPackAll, Sent, ClientRun, Output, Flatten, Packable, FirstFrame, BeforeFirst;
    if unit == 1 {
      assert Texts(msgs)[0] == msgs[0].plain;
      SplitFlatten(1, WithMss(1, mss, writes[0]));
      OneByteRun(p, g, msgs, mss0, chunks);
    } else {
      ServerToClient(p, g, unit, mss, writes, msgs, mss0, chunks);
    }
  }
}
