/**
 * An auth_chain client and server connected to each other: the objects themselves, the bytes in flight between them,
 * and what has gone in and come out. Both sides write and the network delivers chunks of any size, in any order.
 */
module ChainPair {
  import opened ByteStrings
  import opened AuthChain
  import opened ChainAdmission
  import opened ChainCodec
  import opened ChainEnds
  import opened ChainHandshake
  import opened ChainSession
  import opened FrameLink
  import opened FrameLoop
  import opened Options
  import opened StreamBasics
  import opened UserTables
  import ReplayWindow

  /** The server has the right key for every user id that the client may send. */
  ghost predicate Partners(client: Config, server: Config) {
    && GoodPrimitives(client.p) && client.p == server.p
    && forall uid: U32 {:trigger Fit(client, server, uid)} ::
         (client.param.Some? && client.param.value.uid.Some? ==> uid == client.param.value.uid.value) ==>
             Fit(client, server, uid)
  }

  /** The conversation since the client's first write: the greeting, how much of it has arrived, and both
      directions. */
  datatype Talk = Talk(g: Greeting, hello: Bytes, seen: nat, up: Link<Side, Side>, down: Link<Side, Side>)

  /** The client's side of the conversation is the sender of one link and the receiver of the other; so is the
      server's, once it has taken the greeting. */
  ghost predicate TalkAt(p: Primitives, mss0: nat, mss: nat, t: Talk, clientOut: Side, c: ClientEnd, s: ServerEnd,
                         w: Traffic) {
    && clientOut == t.up.sender && Flatten(Texts(t.up.sent)) == w.byClient
    && ServerAt(p, t.g, t.hello, t.seen, t.up, w.toServer, s, w.atServer)
    && t.down.inFlight == w.toClient && Wrote(t.down, mss, w.byServer)
    && ClientAt(p, t.g, mss0, t.down, c, w.atClient)
    && if s.greeted then s.outgoing == t.down.sender else t.down == Start(ServerStart(t.g), ServerStart(t.g))
  }

  /** In every state of a conversation, each side has handed over a prefix of what the other has written, and all of it
      when nothing is in flight. */
  lemma TalkDelivers(p: Primitives, mss0: nat, mss: nat, t: Talk, clientOut: Side, c: ClientEnd, s: ServerEnd,
                     w: Traffic)
    requires GoodPadding(p) && TalkAt(p, mss0, mss, t, clientOut, c, s, w)
    ensures w.atServer <= w.byClient && (w.toServer == [] ==> w.atServer == w.byClient)
    ensures w.atClient <= w.byServer && (w.toClient == [] ==> w.atClient == w.byServer)
    ensures s.greeted ==> InLockStep(p, t.g.session, ClientStart(t.g), t.up.sent, s.incoming, w.atServer)
    ensures ClientInLockStep(p, t.g, t.down.sent, c.incoming, w.atClient)
  {
    hide GoodPadding, Linked, ClientAt, Flatten, Texts, ClientInLockStep, InLockStep;
    var k := LinkedFacts(p, t.g.session, ClientStart(t.g), t.up);
    ClientHasWritten(p, t.g, mss0, mss, t.down, c, w.atClient, w.byServer);
    ClientAtLockStep(p, t.g, mss0, t.down, c, w.atClient);
  }

  /** A client's first write is its greeting and a run of its direction. */
  lemma {:induction false} FirstWriteIs(client: Config, uid: U32, auth: Card, head: Bytes, msgs: seq<Msg>, out: Bytes,
                                        session: Option<Session>, serverHash: Digest, now: Side)
    requires FirstWritten(client, uid, auth, head, UNSEEDED, msgs, out, session, serverHash, now)
    ensures var g := GreetingOf(client, uid, auth, head);
            var c := Chain(client.p, g.session);
            && session == Some(g.session) && serverHash == g.serverHash
            && out == HelloOf(client, uid, auth, head) + Sent(c, ClientStart(g), msgs)
            && CanPackAll(c, ClientStart(g), msgs) && now == AfterAll(c, ClientStart(g), msgs)
  {
    assert out == out[..HELLO_SIZE] + out[HELLO_SIZE..];
  }

  /** It opens the conversation. */
  lemma TalkOpens(p: Primitives, g: Greeting, hello: Bytes, msgs: seq<Msg>, out: Bytes, now: Side, mss0: nat,
                  mss: nat, buffer: Bytes)
    returns (t: Talk)
    requires |hello| == HELLO_SIZE && out == hello + Sent(Chain(p, g.session), ClientStart(g), msgs)
             && Flatten(Texts(msgs)) == buffer
    requires CanPackAll(Chain(p, g.session), ClientStart(g), msgs)
             && now == AfterAll(Chain(p, g.session), ClientStart(g), msgs)
    ensures t.g == g && t.hello == hello && t.down.sent == []
    ensures TalkAt(p, mss0, mss, t, now, Waiting(g, mss0), FRESH_SERVER, Traffic(out, [], buffer, [], [], []))
  {
    assert Greetable([]) == Greetable(hello[..0]) && hello[0..] == hello;
    hide Flatten, Chain, CanPackAll, Sent, AfterAll, Consistent, Texts;
    var up := WholeRun(p, g.session, ClientStart(g), msgs);
    var down := Start(ServerStart(g), ServerStart(g));
    LinkStarts(p, g.session, ServerStart(g));
    LinkRuns(p, g.session, ClientStart(g), up);
    t := Talk(g, hello, 0, up, down);
    hide Linked;
    ClientStarts(p, g, mss0, down);
    hide ClientAt;
  }

  /** The greeting in the conversation is this user's, and one that the server will take, if it comes in time. */
  ghost predicate Acceptable(server: Config, auth: Card, user: Option<U32>, t: Talk) {
    && t.g.card == auth
    && (forall more {:trigger t.hello + more} :: UserNamed(server, t.hello + more, None) == user)
    && forall now {:trigger TimeAccepted(auth.utc, now)} :: TimeAccepted(auth.utc, now) ==>
         Accepts(server, now, t.hello, t.g)
  }

  lemma Opened(client: Config, server: Config, uid: U32, auth: Card, head: Bytes, msgs: seq<Msg>, out: Bytes,
               session: Option<Session>, serverHash: Digest, now: Side, mss0: nat, mss: nat, buffer: Bytes)
    returns (t: Talk)
    requires Partners(client, server) && Flatten(Texts(msgs)) == buffer
    requires FirstWritten(client, uid, auth, head, UNSEEDED, msgs, out, session, serverHash, now)
    ensures Acceptable(server, auth, UserOf(server, uid), t) && t.down.sent == [] && session == Some(t.g.session)
    ensures TalkAt(client.p, mss0, mss, t, now, ClientEnd(false, session, Side(serverHash, 1, 0, UNSEEDED), [], mss0),
                   FRESH_SERVER,
                   Traffic(out, [], buffer, [], [], []))
  {
    hide GoodPadding, GoodCipher, Greet, Hello, PackedSoFar, TalkAt, Flatten, Texts, Accepts;
    hide Chain, Sent, CanPackAll, AfterAll;
    var g, hello := GreetingOf(client, uid, auth, head), HelloOf(client, uid, auth, head);
    assert Fit(client, server, uid) && g.card == auth by {
      GreetingCard(client, uid, auth, head);
    }
    FirstWriteIs(client, uid, auth, head, msgs, out, session, serverHash, now);
    t := TalkOpens(client.p, g, hello, msgs, out, now, mss0, mss, buffer);
    forall now {:trigger TimeAccepted(auth.utc, now)} | TimeAccepted(auth.utc, now)
      ensures Accepts(server, now, hello, g)
    {
      GreetingAccepted(client, server, uid, auth, head, now);
    }
    forall more {:trigger hello + more} ensures UserNamed(server, hello + more, None) == UserOf(server, uid) {
      GreetingNames(client, server, uid, auth, head, more, None);
    }
  }

  lemma {:induction false} LinkRuns(p: Primitives, s: Session, start: Side, l: Link<Side, Side>)
    requires Linked(p, s, start, l)
    ensures CanPackAll(Chain(p, s), start, l.sent) && l.sender == AfterAll(Chain(p, s), start, l.sent)
  {
  }

  /** A run of the encoder behind what has been sent, as an event of its link. */
  lemma WriteSends(p: Primitives, s: Session, start: Side, l: Link<Side, Side>, msgs: seq<Msg>, out: Bytes, now: Side)
    returns (l': Link<Side, Side>)
    requires Linked(p, s, start, l) && PackedSoFar(Chain(p, s), l.sender, msgs, out, now)
    ensures Linked(p, s, start, l')
    ensures l' == l.(sender := now, sent := l.sent + msgs, inFlight := l.inFlight + out)
    ensures Flatten(Texts(l'.sent)) == Flatten(Texts(l.sent)) + Flatten(Texts(msgs))
  {
    LinkSends(p, s, start, l, msgs);
    l' := Apply(Chain(p, s), l, Send(msgs));
    TextsOfMore(l.sent, msgs);
  }

  /** The client writes. */
  lemma TalkClientWrites(p: Primitives, mss0: nat, mss: nat, t: Talk, clientOut: Side, c: ClientEnd, s: ServerEnd,
                         w: Traffic, buffer: Bytes, msgs: seq<Msg>, out: Bytes, now: Side)
    returns (t': Talk)
    requires TalkAt(p, mss0, mss, t, clientOut, c, s, w)
    requires PackedSoFar(Chain(p, t.g.session), clientOut, msgs, out, now) && Flatten(Texts(msgs)) == buffer
    ensures t'.g == t.g && t'.hello == t.hello && t'.seen == t.seen && t'.down == t.down
    ensures TalkAt(p, mss0, mss, t', now, c, s, w.(toServer := w.toServer + out, byClient := w.byClient + buffer))
  {
    hide Linked, ClientAt, Flatten, Texts, PackedSoFar, Chain;
    var up := WriteSends(p, t.g.session, ClientStart(t.g), t.up, msgs, out, now);
    t' := t.(up := up);
    assert (t.hello[t.seen..] + t.up.inFlight) + out == t.hello[t.seen..] + (t.up.inFlight + out);
  }

  /** The pieces of a write, and that the first holds the MSS. */
  lemma {:induction false} PiecesOf(unit: nat, packId: U32, tcpMss: nat, buffer: Bytes, msgs: seq<Msg>)
    requires unit >= 2 && Texts(msgs) == Split(unit, WithMss(packId, tcpMss, buffer))
    ensures msgs != [] && Flatten(Texts(msgs)) == (if packId == 1 then Le16(Min(tcpMss, 1500)) + buffer else buffer)
    ensures packId == 1 ==> |msgs[0].plain| >= 2
  {
    hide Split, Flatten, Le16;
    SplitFlatten(unit, WithMss(packId, tcpMss, buffer));
    assert |Texts(msgs)| == |msgs| && Texts(msgs)[0] == msgs[0].plain;
  }

  /** What a write of the server adds to what it has written: before the first, the MSS. */
  lemma {:induction false} WroteMore(l: Link<Side, Side>, mss: nat, written: Bytes, unit: nat, packId: U32,
                                     tcpMss: nat, buffer: Bytes, msgs: seq<Msg>)
    requires Wrote(l, mss, written) && unit >= 2 && Texts(msgs) == Split(unit, WithMss(packId, tcpMss, buffer))
    requires packId == 1 <==> l.sent == []
    requires l.sent == [] ==> Min(tcpMss, 1500) == Min(mss, 1500)
    ensures msgs != []
    ensures l.sent == [] ==> |msgs[0].plain| >= 2
    ensures Flatten(Texts(l.sent + msgs)) == Le16(Min(mss, 1500)) + (written + buffer)
  {
    PiecesOf(unit, packId, tcpMss, buffer, msgs);
    hide Split, Le16;
    TextsOfMore(l.sent, msgs);
    if l.sent == [] {
      assert Flatten(Texts(l.sent)) == [];
      hide Flatten, Texts;
      assert [] + Flatten(Texts(msgs)) == Flatten(Texts(msgs)) && [] + buffer == buffer;
    } else {
      hide Flatten, Texts;
      assert (Le16(Min(mss, 1500)) + written) + buffer == Le16(Min(mss, 1500)) + (written + buffer);
    }
  }

  lemma TextsOfMore(a: seq<Msg>, b: seq<Msg>)
    ensures Flatten(Texts(a + b)) == Flatten(Texts(a)) + Flatten(Texts(b))
  {
    assert Texts(a + b) == Texts(a) + Texts(b);
    FlattenAppend(Texts(a), Texts(b));
  }

  /** The server writes; its frame number tells whether it is the first write. */
  lemma TalkServerWrites(p: Primitives, mss0: nat, mss: nat, t: Talk, clientOut: Side, c: ClientEnd, s: ServerEnd,
                         w: Traffic, buffer: Bytes, msgs: seq<Msg>, out: Bytes, now: Side, unit: nat, tcpMss: nat)
    returns (t': Talk)
    requires TalkAt(p, mss0, mss, t, clientOut, c, s, w) && s.greeted
    requires PackedSoFar(Chain(p, t.g.session), s.outgoing, msgs, out, now)
    requires unit >= 2 && Texts(msgs) == Split(unit, WithMss(s.outgoing.id, tcpMss, buffer))
    requires t.down.sent == [] ==> Min(tcpMss, 1500) == Min(mss, 1500)
    requires |t.down.sent| + |msgs| <= 0x1_0000_0000
    ensures t'.g == t.g && t'.hello == t.hello && t'.seen == t.seen && t'.up == t.up
            && t'.down.sent == t.down.sent + msgs != []
    ensures TalkAt(p, mss0, mss, t', clientOut, c, s.(outgoing := now),
                   w.(toClient := w.toClient + out, byServer := w.byServer + buffer))
  {
    hide Linked, Flatten, Texts, Split, PackedSoFar, Chain, ClientText, MssAfter, Short;
    FirstIffOne(p, t.g, t.down, msgs, unit, WithMss(s.outgoing.id, tcpMss, buffer));
    WroteMore(t.down, mss, w.byServer, unit, s.outgoing.id, tcpMss, buffer, msgs);
    var down := WriteSends(p, t.g.session, ServerStart(t.g), t.down, msgs, out, now);
    t' := t.(down := down);
    assert t.down.sent != [] ==> down.sent[0] == t.down.sent[0];
  }

  lemma {:induction false} FirstIffOne(p: Primitives, g: Greeting, l: Link<Side, Side>, msgs: seq<Msg>, unit: nat,
                                       buffer: Bytes)
    requires Linked(p, g.session, ServerStart(g), l) && |l.sent| + |msgs| <= 0x1_0000_0000
    requires unit > 0 && Texts(msgs) == Split(unit, buffer)
    ensures l.sender.id == 1 <==> l.sent == []
  {
    hide Linked;
    SplitFlatten(unit, buffer);
    IdsOfLink(p, g.session, ServerStart(g), l);
    assert |msgs| == |Texts(msgs)| > 0;
  }

  /** What a greeted server holds in a conversation. */
  lemma TalkServer(p: Primitives, mss0: nat, mss: nat, t: Talk, clientOut: Side, c: ClientEnd, s: ServerEnd, w: Traffic)
    requires TalkAt(p, mss0, mss, t, clientOut, c, s, w)
    ensures if s.greeted then s.session == Some(t.g.session) && s.overhead == t.g.card.overhead
            && s.outgoing == t.down.sender
            else s.session == None
    ensures s.greeted && t.down.sent == [] ==> s.outgoing.id == 1
  {
    hide Linked, Flatten, Wrote;
    IdsOfLink(p, t.g.session, ServerStart(t.g), t.down);
  }

  /** Any number of bytes reach the server. */
  lemma TalkServerReceives(server: Config, mss0: nat, mss: nat, t: Talk, clientOut: Side, c: ClientEnd, s: ServerEnd,
                           w: Traffic, call: Call)
    returns (t': Talk)
    requires GoodPadding(server.p) && TalkAt(server.p, mss0, mss, t, clientOut, c, s, w) && ServerSane(s)
             && call.chunk <= w.toServer
    requires !s.greeted ==> call.admitted && Accepts(server, call.now, t.hello, t.g)
    ensures var (s', reply) := ServerCall(server, s, call);
            && reply.Data? && t'.g == t.g && t'.hello == t.hello && t'.down == t.down
            && TalkAt(server.p, mss0, mss, t', clientOut, c, s',
                      w.(toServer := w.toServer[|call.chunk|..], atServer := w.atServer + reply.out))
  {
    hide GoodPadding, Linked, Flatten, Texts, ClientAt, ServerCall, Accepts, Chain;
    var n := |call.chunk|;
    SeenUntilGreeted(server.p, t.g, t.hello, t.seen, t.up, w.toServer, s, w.atServer);
    ServerAdvances(server, call, t.hello, t.g, t.seen, t.up, w.toServer, s, w.atServer);
    t' := t.(seen := SeenAfter(t.seen, n), up := UpAfter(server.p, t.g.session, t.seen, t.up, n));
    if s.greeted {
      StaysGreeted(server, s, call);
    }
  }

  lemma SeenUntilGreeted(p: Primitives, g: Greeting, hello: Bytes, seen: nat, l: Link<Side, Side>, wire: Bytes,
                         e: ServerEnd, out: Bytes)
    requires ServerAt(p, g, hello, seen, l, wire, e, out)
    ensures seen < HELLO_SIZE <==> !e.greeted
  {
  }

  lemma NothingDelivered(p: Primitives, s: Session, d: Side)
    ensures Apply(Chain(p, s), Start(d, d), Deliver(0)) == Start(d, d)
  {
    TurnWaits(p, s, d);
    assert Decode(Turns(p, s), d, []) == Decoded([], d, [], More);
  }

  /** Any number of bytes reach the client. */
  lemma TalkClientReceives(p: Primitives, mss0: nat, mss: nat, t: Talk, clientOut: Side, c: ClientEnd, s: ServerEnd,
                           w: Traffic, n: nat)
    returns (t': Talk)
    requires GoodPadding(p) && TalkAt(p, mss0, mss, t, clientOut, c, s, w) && n <= |w.toClient|
    ensures var (c', reply) := ClientCall(p, c, w.toClient[..n]);
            && reply.Data? && t'.g == t.g && t'.hello == t.hello && t'.seen == t.seen && t'.down.sent == t.down.sent
            && TalkAt(p, mss0, mss, t', clientOut, c', s,
                      w.(toClient := w.toClient[n..], atClient := w.atClient + reply.out))
  {
    hide GoodPadding, Linked, Flatten, Texts, ClientAt, ServerAt, ClientCall, Chain;
    LinkOf(p, t.g, mss0, t.down, c, w.atClient);
    ClientAdvances(p, t.g, mss0, t.down, c, w.atClient, n);
    t' := t.(down := Apply(Chain(p, t.g.session), t.down, Deliver(n)));
    NothingDelivered(p, t.g.session, ServerStart(t.g));
  }

  lemma NothingArrives(cfg: Config, c: Call)
    requires c.chunk == []
    ensures ServerCall(cfg, FRESH_SERVER, c) == (FRESH_SERVER, Data([], false))
  {
  }

  // ----- the state of a pair -----

  /** All of it that matters: the card of the greeting and the user it is from, the conversation, the client (its unit,
      its sending side and its receiving end), the server (its MSS, its unit and its receiving end), and the traffic.
      mss0 and mss are what the two ends were given. */
  datatype PairState = PairState(mss0: nat, mss: nat, auth: Card, user: Option<U32>, talk: Option<Talk>,
                                 greetingSent: bool, clientUnit: int, clientOut: Side, client: ClientEnd,
                                 serverMss: nat, serverUnit: int, server: ServerEnd, traffic: Traffic)

  ghost predicate PairAt(client: Config, server: Config, st: PairState) {
    && Partners(client, server) && st.clientUnit == UNIT_LEN && st.auth.overhead == client.overhead
    && 2 <= UnitFor(st.mss, client.overhead) && Min(st.serverMss, 1500) == Min(st.mss, 1500)
    && !st.server.raw && ServerSane(st.server)
    && match st.talk
       case None =>
         && !st.greetingSent && st.clientOut == FRESH_SIDE
            && st.client == ClientEnd(false, None, FRESH_SIDE, [], st.mss0)
         && st.server == FRESH_SERVER && st.traffic == Traffic([], [], [], [], [], [])
       case Some(t) =>
         && st.greetingSent && st.client.session == Some(t.g.session) && Acceptable(server, st.auth, st.user, t)
         && (t.down.sent != [] ==> 2 <= st.serverUnit <= MAX_PAYLOAD)
         && TalkAt(client.p, st.mss0, st.mss, t, st.clientOut, st.client, st.server, st.traffic)
  }

  /** The unit that the server cuts its next write into, which can be used. */
  function NextUnit(st: PairState): int {
    if st.server.outgoing.id == 1 then UnitFor(st.serverMss, st.server.overhead) else st.serverUnit
  }

  lemma UnitUsable(client: Config, server: Config, st: PairState)
    requires PairAt(client, server, st)
    ensures client.p == server.p && !st.server.raw && (st.server.session.Some? <==> st.server.greeted)
    ensures st.server.greeted ==> 2 <= NextUnit(st) <= MAX_PAYLOAD
  {
    assert client.p == server.p;
    hide Partners, TalkAt;
    if st.talk.Some? {
      TalkServer(client.p, st.mss0, st.mss, st.talk.value, st.clientOut, st.client, st.server, st.traffic);
      if st.server.greeted && st.talk.value.down.sent == [] {
        assert st.server.overhead == client.overhead;
      }
    }
  }

  lemma ClientReady(client: Config, server: Config, st: PairState)
    requires PairAt(client, server, st)
    ensures st.clientUnit == UNIT_LEN && (st.talk.Some? <==> st.greetingSent)
    ensures st.greetingSent ==> st.client.session.Some?
    ensures !st.greetingSent ==> !st.server.greeted
    ensures !st.greetingSent ==> st.client.session == None && st.clientOut == Side(st.clientOut.hash, 1, 0, UNSEEDED)
                                 && st.client.incoming == Side(st.client.incoming.hash, 1, 0, UNSEEDED)
  {
    hide Partners, TalkAt, Acceptable;
  }

  /** The server comes to no more than 2^32 frames, so that the number of the first does not come again. */
  ghost predicate RoomFor(st: PairState, buffer: Bytes) {
    st.talk.Some? && NextUnit(st) > 0 ==>
      |st.talk.value.down.sent| + |Split(NextUnit(st),
                                         WithMss(st.server.outgoing.id, st.serverMss, buffer))| <= 0x1_0000_0000
  }

  lemma FirstClientWrite(client: Config, server: Config, st: PairState, uid: U32, card: Card, head: Bytes,
                         msgs: seq<Msg>, buffer: Bytes, out: Bytes, session: Option<Session>, serverHash: Digest,
                         now: Side)
    returns (t: Talk)
    requires PairAt(client, server, st) && st.talk == None && card.overhead == client.overhead
    requires FirstWritten(client, uid, card, head, UNSEEDED, msgs, out, session, serverHash, now)
             && Flatten(Texts(msgs)) == buffer
    ensures PairAt(client, server,
                   st.(talk := Some(t), auth := card, user := UserOf(server, uid), greetingSent := true,
                       clientOut := now,
                       client := st.client.(session := session, incoming := st.client.incoming.(hash := serverHash)),
                       traffic := st.traffic.(toServer := st.traffic.toServer + out,
                                              byClient := st.traffic.byClient + buffer)))
  {
    hide FirstWritten, Acceptable, Flatten, Texts, TalkAt;
    t := Opened(client, server, uid, card, head, msgs, out, session, serverHash, now, st.mss0, st.mss, buffer);
    hide Partners;
    assert [] + out == out && [] + buffer == buffer;
  }

  lemma LaterClientWrite(client: Config, server: Config, st: PairState, msgs: seq<Msg>, buffer: Bytes, out: Bytes,
                         now: Side)
    returns (t: Talk)
    requires PairAt(client, server, st) && st.talk.Some? && st.client.session.Some?
    requires PackedSoFar(Chain(client.p, st.client.session.value), st.clientOut, msgs, out, now)
             && Flatten(Texts(msgs)) == buffer
    ensures PairAt(client, server,
                   st.(talk := Some(t), clientOut := now,
                       traffic := st.traffic.(toServer := st.traffic.toServer + out,
                                              byClient := st.traffic.byClient + buffer)))
  {
    hide Partners, TalkAt, PackedSoFar, Flatten, Texts, Chain;
    t := TalkClientWrites(client.p, st.mss0, st.mss, st.talk.value, st.clientOut, st.client, st.server, st.traffic,
                          buffer, msgs, out,
                          now);
  }

  lemma ClientWrite(client: Config, server: Config, st: PairState, uid: U32, card: Card, head: Bytes, msgs: seq<Msg>,
                    buffer: Bytes, out: Bytes, session: Option<Session>, serverHash: Digest, now: Side)
    returns (t: Talk)
    requires PairAt(client, server, st) && card.overhead == client.overhead && session.Some?
             && Flatten(Texts(msgs)) == buffer
    requires if st.greetingSent then
               && session == st.client.session && serverHash == st.client.incoming.hash
               && PackedSoFar(Chain(client.p, session.value), st.clientOut, msgs, out, now)
             else FirstWritten(client, uid, card, head, UNSEEDED, msgs, out, session, serverHash, now)
    ensures PairAt(client, server,
                   st.(talk := Some(t), auth := if st.greetingSent then st.auth else card,
                       user := if st.greetingSent then st.user else UserOf(server, uid), greetingSent := true,
                       clientOut := now,
                       client := st.client.(session := session, incoming := st.client.incoming.(hash := serverHash)),
                       traffic := st.traffic.(toServer := st.traffic.toServer + out,
                                              byClient := st.traffic.byClient + buffer)))
  {
    hide PairAt, PackedSoFar, FirstWritten, Flatten, Texts, Chain;
    ClientReady(client, server, st);
    if st.greetingSent {
      t := LaterClientWrite(client, server, st, msgs, buffer, out, now);
    } else {
      t := FirstClientWrite(client, server, st, uid, card, head, msgs, buffer, out, session, serverHash, now);
    }
  }

  lemma ServerWrite(client: Config, server: Config, st: PairState, msgs: seq<Msg>, buffer: Bytes, out: Bytes,
                    now: Side, unit: int, mss: nat)
    returns (t: Talk)
    requires PairAt(client, server, st) && st.server.session.Some? && RoomFor(st, buffer)
    requires unit == NextUnit(st) > 0 && Texts(msgs)
             == Split(unit, WithMss(st.server.outgoing.id, st.serverMss, buffer))
    requires PackedSoFar(Chain(client.p, st.server.session.value), st.server.outgoing, msgs, out, now)
    requires Min(mss, 1500) == Min(st.serverMss, 1500)
    ensures PairAt(client, server,
                   st.(talk := Some(t), serverMss := mss, serverUnit := unit, server := st.server.(outgoing := now),
                       traffic := st.traffic.(toClient := st.traffic.toClient + out,
                                              byServer := st.traffic.byServer + buffer)))
  {
    hide Partners, TalkAt, PackedSoFar, Flatten, Chain, Split, UnitFor, WithMss;
    UnitUsable(client, server, st);
    assert |msgs| == |Texts(msgs)|;
    hide Texts, NextUnit;
    TalkServer(client.p, st.mss0, st.mss, st.talk.value, st.clientOut, st.client, st.server, st.traffic);
    t := TalkServerWrites(client.p, st.mss0, st.mss, st.talk.value, st.clientOut, st.client, st.server, st.traffic,
                          buffer, msgs, out,
                          now, unit, st.serverMss);
  }

  /** What a refused write of a server without keys leaves behind. */
  lemma ServerWriteRefused(client: Config, server: Config, st: PairState, unit: int, mss: nat)
    requires PairAt(client, server, st) && st.server.session == None && Min(mss, 1500) == Min(st.serverMss, 1500)
    ensures PairAt(client, server, st.(serverMss := mss, serverUnit := unit))
  {
    UnitUsable(client, server, st);
    hide Partners;
    if st.talk.Some? {
      assert st.talk.value.down.sent == [];
    }
  }

  lemma ServerDelivery(client: Config, server: Config, st: PairState, call: Call) returns (next: Option<Talk>)
    requires PairAt(client, server, st) && call.chunk <= st.traffic.toServer
    requires st.talk.Some? && !st.server.greeted ==> call.admitted && TimeAccepted(st.auth.utc, call.now)
    ensures var (s', reply) := ServerCall(server, st.server, call);
            && reply.Data?
            && PairAt(client, server,
                      st.(talk := next, server := s',
                          traffic := st.traffic.(toServer := st.traffic.toServer[|call.chunk|..],
                                                 atServer := st.traffic.atServer + reply.out)))
  {
    hide GoodPadding, TalkAt, Accepts, ServerCall, Fit;
    if st.talk.Some? {
      var t := TalkServerReceives(server, st.mss0, st.mss, st.talk.value, st.clientOut, st.client, st.server,
                                  st.traffic, call);
      next := Some(t);
      StillOn(client.p, st.mss0, st.mss, t, st.clientOut, st.client, ServerCall(server, st.server, call).0,
              st.traffic.(toServer := st.traffic.toServer[|call.chunk|..],
                          atServer := st.traffic.atServer + ServerCall(server, st.server, call).1.out));
    } else {
      NothingArrives(server, call);
      next := None;
    }
  }

  // ----- the tables of clients -----

  /** Who the server takes its client for: nobody before the greeting, then the user and client of the greeting. */
  ghost predicate PairKnown(client: Config, server: Config, st: PairState, who: Caller<U32>) {
    && PairAt(client, server, st)
    && who == if st.server.greeted then Caller(st.user, st.auth.clientId) else NOBODY
  }

  /** The answer of the tables to the greeting in the conversation. */
  predicate LetsIn(us: Tables<Option<U32>>, max: int, user: Option<U32>, auth: Card, clock: real) {
    UserInserted(ReplayWindow.CountedIdle, us, max, user, auth.clientId, auth.connectionId, clock).0
  }

  /** The bytes that a server waiting for the greeting has with one chunk more: part of it, or more than it. */
  lemma GreetingOrMore(p: Primitives, g: Greeting, hello: Bytes, seen: nat, l: Link<Side, Side>, wire: Bytes,
                       e: ServerEnd, out: Bytes, chunk: Bytes)
    requires ServerAt(p, g, hello, seen, l, wire, e, out) && !e.greeted && chunk <= wire && |hello| == HELLO_SIZE
    ensures var received := e.buf + chunk;
            if |received| < HELLO_SIZE then received < hello
            else received == hello + received[HELLO_SIZE..]
  {
    if seen + |chunk| < |hello| {
      GreetingGrows(hello, seen, l.inFlight, wire, |chunk|);
    } else {
      GreetingComplete(hello, seen, l.inFlight, wire, |chunk|);
    }
  }

  /** What the tables are asked by a server waiting for the greeting, and what it knows then. */
  lemma GreetingAsks(client: Config, server: Config, st: PairState, chunk: Bytes, now: U32)
    requires PairAt(client, server, st) && chunk <= st.traffic.toServer && !st.server.greeted
    requires st.talk.Some? ==> TimeAccepted(st.auth.utc, now)
    ensures var received := st.server.buf + chunk;
            && (ServerCall(server, st.server, Call(chunk, now, true)).0.greeted <==> |received| >= HELLO_SIZE)
            && if |received| < HELLO_SIZE then
                 UserNamed(server, received, None) == None && IdsOf(server, received, now) == None
               else
                 && st.talk.Some?
                 && UserNamed(server, received, None) == st.user
                 && IdsOf(server, received, now) == Some(Ids(st.auth.clientId, st.auth.connectionId))
  {
    hide Partners, ServerAt, ClientAt, Linked, Wrote, HeadFails, SentUid, ReadWholeHello, Decode;
    var received := st.server.buf + chunk;
    if st.talk == None {
      assert received == [];
      EmptyWaits(server, now);
    } else {
      var t, w := st.talk.value, st.traffic;
      GreetingOrMore(client.p, t.g, t.hello, t.seen, t.up, w.toServer, st.server, w.atServer, chunk);
      hide JudgeHello;
      assert Accepts(server, now, t.hello, t.g);
    }
  }

  lemma EmptyWaits(cfg: Config, now: U32)
    ensures JudgeHello(cfg, [], now, true) == Wait
  {
  }

  lemma GuardedDelivery(client: Config, server: Config, st: PairState, chunk: Bytes, max: int,
                        us: Tables<Option<U32>>, who: Caller<U32>, now: U32, clock: real)
    returns (next: Option<Talk>)
    requires PairKnown(client, server, st, who) && chunk <= st.traffic.toServer
    requires st.talk.Some? && !st.server.greeted ==>
               TimeAccepted(st.auth.utc, now) && LetsIn(us, max, st.user, st.auth, clock)
    ensures ServerSane(st.server)
    ensures var r := GuardedCall(server, max, st.server, who, us, chunk, now, clock);
            && r.reply.Data?
            && PairKnown(client, server,
                         st.(talk := next, server := r.end,
                             traffic := st.traffic.(toServer := st.traffic.toServer[|chunk|..],
                                                    atServer := st.traffic.atServer + r.reply.out)), r.who)
  {
    hide ServerCall, PairAt, UserNamed, IdsOf;
    UnitUsable(client, server, st);
    var c := Call(chunk, now, true);
    next := ServerDelivery(client, server, st, c);
    if st.server.greeted {
      StaysGreeted(server, st.server, c);
    } else {
      GreetingAsks(client, server, st, chunk, now);
    }
  }

  lemma StillOn(p: Primitives, mss0: nat, mss: nat, t: Talk, clientOut: Side, c: ClientEnd, s: ServerEnd, w: Traffic)
    requires TalkAt(p, mss0, mss, t, clientOut, c, s, w)
    ensures !s.raw && c.session == Some(t.g.session)
  {
  }

  lemma ClientDelivery(client: Config, server: Config, st: PairState, n: nat) returns (next: Option<Talk>)
    requires PairAt(client, server, st) && n <= |st.traffic.toClient|
    ensures var (c', reply) := ClientCall(client.p, st.client, st.traffic.toClient[..n]);
            && reply.Data?
            && PairAt(client, server,
                      st.(talk := next, client := c',
                          traffic := st.traffic.(toClient := st.traffic.toClient[n..],
                                                 atClient := st.traffic.atClient + reply.out)))
  {
    hide GoodPadding, TalkAt, Acceptable, Fit, ClientCall;
    if st.talk.Some? {
      var t := TalkClientReceives(client.p, st.mss0, st.mss, st.talk.value, st.clientOut, st.client, st.server,
                                  st.traffic, n);
      next := Some(t);
      var (c', reply) := ClientCall(client.p, st.client, st.traffic.toClient[..n]);
      StillOn(client.p, st.mss0, st.mss, t, st.clientOut, c', st.server,
              st.traffic.(toClient := st.traffic.toClient[n..], atClient := st.traffic.atClient + reply.out));
      AcceptableStill(server, st.auth, st.user, st.talk.value, t);
    } else {
      NothingReaches(client.p, st.mss0);
      next := None;
    }
  }

  lemma AcceptableStill(server: Config, auth: Card, user: Option<U32>, t: Talk, t': Talk)
    requires Acceptable(server, auth, user, t) && t'.g == t.g && t'.hello == t.hello
    ensures Acceptable(server, auth, user, t')
  {
  }

  lemma NothingReaches(p: Primitives, mss: nat)
    ensures var e := ClientEnd(false, None, FRESH_SIDE, [], mss);
            ClientCall(p, e, []) == (e, Data([], false))
  {
  }

  lemma PairStarts(client: Config, server: Config, mss0: nat, mss: nat)
    requires Partners(client, server) && 2 <= UnitFor(mss, client.overhead)
    ensures PairAt(client, server,
                   PairState(mss0, mss, Card(0, 0, 0, client.overhead), None, None, false, UNIT_LEN, FRESH_SIDE,
                             ClientEnd(false, None, FRESH_SIDE, [], mss0), mss, UNIT_LEN, FRESH_SERVER,
                             Traffic([], [], [], [], [], [])))
  {
    hide Partners;
  }

  class Pair {
    const client: AuthChain
    const server: AuthChain
    var toServer: Bytes
    var toClient: Bytes
    var atServer: Bytes
    var atClient: Bytes
    ghost const mss0: nat
    ghost const mss: nat
    ghost var byClient: Bytes
    ghost var byServer: Bytes
    ghost var auth: Card
    ghost var user: Option<U32>
    ghost var talk: Option<Talk>

    /** A client and a server that have not exchanged anything yet. */
    constructor (client: Config, server: Config, mss0: nat, mss: nat)
      requires Partners(client, server) && 2 <= UnitFor(mss, client.overhead)
      ensures Valid() && fresh(this.client) && fresh(this.server)
      ensures this.client.cfg == client && this.server.cfg == server
      ensures Moved() == Traffic([], [], [], [], [], [])
    {
      this.client := new AuthChain(client, mss0);
      this.server := new AuthChain(server, mss);
      toServer, toClient, atServer, atClient := [], [], [], [];
      this.mss0, this.mss := mss0, mss;
      byClient, byServer := [], [];
      auth := Card(0, 0, 0, client.overhead);
      talk, user := None, None;
      hide PairAt, Partners;
      PairStarts(client, server, mss0, mss);
    }

    ghost function Moved(): Traffic reads this {
      Traffic(toServer, atServer, byClient, toClient, atClient, byServer)
    }

    ghost function State(): PairState reads this, client, server {
      PairState(mss0, mss, auth, user, talk, client.hasSentHeader, client.unitLen, client.ClientOut(),
                client.ClientView(),
                server.tcpMss,
                server.unitLen, server.ServerView(), Moved())
    }

    ghost predicate Valid() reads this, client, server {
      client != server && PairKnown(client.cfg, server.cfg, State(), server.Who())
    }

    /** Whatever has happened, each side has handed over a prefix of what the other has written, and all of it when
        nothing is in flight. */
    lemma Delivers()
      requires Valid()
      ensures atServer <= byClient && (toServer == [] ==> atServer == byClient)
      ensures atClient <= byServer && (toClient == [] ==> atClient == byServer)
    {
      hide TalkAt, GoodPadding;
      if talk.Some? {
        TalkDelivers(client.cfg.p, mss0, mss, talk.value, client.ClientOut(), client.ClientView(),
                     server.ServerView(), Moved());
      }
    }

    /** What the client has to say, with the conversation as it is once the bytes are on the wire. */
    method PackAtClient(buffer: Bytes, card: Card, jitter: nat)
      returns (out: Bytes, ghost t: Talk, ghost u: Option<U32>)
      requires Valid() && jitter <= 31 && card.overhead == client.cfg.overhead
      modifies client
      ensures PairKnown(client.cfg, server.cfg,
                        State().(talk := Some(t), auth := if talk.Some? then auth else card, user := u,
                                 traffic := Moved().(toServer := toServer + out, byClient := byClient + buffer)),
                        server.Who())
    {
      ghost var st := State();
      hide PairAt, FirstWritten, PackedSoFar, Flatten, Texts, Chain, Turns, FirstSide;
      hide UserKey, Greet, Hello, FRESH_SIDE, RoomFor;
      ClientReady(client.cfg, server.cfg, st);
      ghost var uid, head, msgs;
      out, uid, head, msgs := client.ClientPreEncrypt(buffer, card, jitter);
      t := ClientWrite(client.cfg, server.cfg, st, uid, card, head, msgs, buffer, out, client.session,
                       client.lastServerHash,
                       client.ClientOut());
      u := if st.greetingSent then user else UserOf(server.cfg, uid);
    }

    /** The client writes; its first write begins with the greeting card. */
    method ClientWrites(buffer: Bytes, card: Card, jitter: nat)
      requires Valid() && jitter <= 31 && card.overhead == client.cfg.overhead
      modifies this, client
      ensures Valid() && talk.Some? && auth == (if old(talk).Some? then old(auth) else card)
      ensures Moved() == old(Moved()).(toServer := toServer, byClient := old(byClient) + buffer)
    {
      hide PairAt;
      var out; ghost var t, u;
      out, t, u := PackAtClient(buffer, card, jitter);
      auth := if talk.Some? then auth else card;
      talk, user := Some(t), u;
      toServer := toServer + out;
      byClient := byClient + buffer;
    }

    /** What the server has to say, if it has taken the greeting. */
    method PackAtServer(buffer: Bytes) returns (out: Option<Bytes>, ghost t: Option<Talk>)
      requires Valid() && RoomFor(State(), buffer)
      modifies server
      ensures server.hasRecvHeader == old(server.hasRecvHeader) == out.Some?
      ensures PairKnown(client.cfg, server.cfg,
                        if out.Some? then
                          State().(talk := t, traffic := Moved().(toClient := toClient + out.value,
                                                                  byServer := byServer + buffer))
                        else State(), server.Who())
    {
      ghost var st := State();
      hide PairAt, PackedSoFar, Flatten, Texts, Split, Chain, Turns, FRESH_SIDE, WithMss, RoomFor;
      UnitUsable(client.cfg, server.cfg, st);
      ghost var msgs;
      t := talk;
      out, msgs := server.ServerPreEncrypt(buffer);
      if out.Some? {
        ghost var t1 := ServerWrite(client.cfg, server.cfg, st, msgs, buffer, out.value, server.ServerOut(),
                                    server.unitLen, server.tcpMss);
        t := Some(t1);
      } else {
        ServerWriteRefused(client.cfg, server.cfg, st, server.unitLen, server.tcpMss);
      }
    }

    /** The server writes; before it has taken the greeting it raises instead. */
    method ServerWrites(buffer: Bytes) returns (sent: bool)
      requires Valid() && RoomFor(State(), buffer)
      modifies this, server
      ensures Valid() && sent == server.hasRecvHeader == old(server.hasRecvHeader)
      ensures Moved() == if sent then old(Moved()).(toClient := toClient, byServer := old(byServer) + buffer)
                         else old(Moved())
    {
      hide PairAt, RoomFor;
      var out; ghost var t;
      out, t := PackAtServer(buffer);
      sent := out.Some?;
      if sent {
        talk := t;
        toClient := toClient + out.value;
        byServer := byServer + buffer;
      }
    }

    /** The server's call; nothing else changes. */
    method CallServer(chunk: Bytes, data: UserData<Option<U32>>, now: U32, clock: real) returns (reply: Reply)
      requires client != server && ServerSane(server.ServerView())
      requires data.Valid() && data.rule == ReplayWindow.CountedIdle
      modifies server, data, data.tables.Values
      ensures data.Valid() && fresh(data.tables.Values - old(data.tables.Values))
      ensures State() == old(State()).(server := server.ServerView())
      ensures Outcome(server.ServerView(), server.Who(), data.View(), reply) ==
              GuardedCall(server.cfg, data.maxClient, old(server.ServerView()), old(server.Who()), old(data.View()),
                          chunk, now, clock)
    {
      hide GuardedCall;
      reply := server.ServerPostDecrypt(chunk, data, now, clock);
    }

    /** The network delivers n bytes to the server. Until it has taken the greeting, its clock and the tables of
        clients, which it shares with other connections, decide about it. */
    method DeliverToServer(n: nat, data: UserData<Option<U32>>, now: U32, clock: real) returns (reply: Reply)
      requires Valid() && n <= |toServer| && data.Valid() && data.rule == ReplayWindow.CountedIdle
      requires talk.Some? && !server.hasRecvHeader ==>
                 TimeAccepted(auth.utc, now) && LetsIn(data.View(), data.maxClient, user, auth, clock)
      modifies this, server, data, data.tables.Values
      ensures Valid() && reply.Data? && data.Valid() && fresh(data.tables.Values - old(data.tables.Values))
      ensures Moved() == old(Moved()).(toServer := old(toServer)[n..], atServer := old(atServer) + reply.out)
    {
      ghost var st := State();
      hide PairKnown, GuardedCall, TimeAccepted, LetsIn, FRESH_SIDE, data.Valid, data.View;
      ghost var t := GuardedDelivery(client.cfg, server.cfg, st, toServer[..n], data.maxClient, data.View(),
                                     server.Who(),
                                     now, clock);
      reply := CallServer(toServer[..n], data, now, clock);
      talk := t;
      toServer := toServer[n..];
      atServer := atServer + reply.out;
    }

    /** The network delivers n bytes to the client. */
    method DeliverToClient(n: nat) returns (reply: Reply)
      requires Valid() && n <= |toClient|
      modifies this, client
      ensures Valid() && reply.Data?
      ensures Moved() == old(Moved()).(toClient := old(toClient)[n..], atClient := old(atClient) + reply.out)
    {
      ghost var st := State();
      hide PairAt, ClientCall;
      reply := client.ClientPostDecrypt(toClient[..n]);
      talk := ClientDelivery(client.cfg, server.cfg, st, n);
      toClient := toClient[n..];
      atClient := atClient + reply.out;
    }
  }
}
