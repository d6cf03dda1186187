/**
 * An auth_sha1_v4 or auth_aes128 client and server connected to each other: the objects themselves, the bytes in flight
 * between them, and what has gone in and come out. Both sides write and the network delivers chunks of any size, in
 * any order.
 */
module AuthPair {
  import opened Admission
  import opened AuthEnds
  import opened AuthFrames
  import opened AuthGreeting
  import opened AuthSession
  import opened AuthStream
  import opened ByteStrings
  import opened FrameLink
  import opened FrameLoop
  import opened ClientTable
  import opened Options
  import opened StreamBasics
  import opened UserTables
  import ReplayWindow

  /** The user ids that a client may send. */
  predicate MaySend(client: Protocol, uid: Uid) {
    client.AuthAes128? && client.param.Some? && client.param.value.uid.Some? ==>
        uid == Le32(client.param.value.uid.value)
  }

  /** The server has the right key for each of them. */
  ghost predicate Partners(client: Protocol, server: Protocol) {
    && FormatOf(server, ClientKey(client)) == FormatOf(client, ClientKey(client))
       && StartKey(server) == StartKey(client)
    && forall uid: Uid {:trigger Fit(client, server, uid)} :: MaySend(client, uid) ==> Fit(client, server, uid)
  }

  /** What the client has begun with: the greeting and the payload in it, how much of it has arrived, and what
      follows. */
  datatype Talk = Talk(hello: Bytes, first: Bytes, seen: nat, up: Link<U32, Inbound>)

  /** The state of a pair: the card of the greeting, the conversation, the client (the number of its next frame and its
      receiving end), the server likewise, and the traffic. */
  datatype PairState = PairState(card: Card, talk: Option<Talk>, down: Link<U32, Inbound>, greetingSent: bool,
                                 clientId: U32,
                                 client: End, serverId: U32, server: End, traffic: Traffic)

  /** The server will take the greeting, if it comes in time. */
  ghost predicate Acceptable(server: Protocol, key: Bytes, card: Card, hello: Bytes, first: Bytes) {
    && hello != [] && Teaches(server, hello, key)
    && forall now {:trigger TimeAccepted(card.utc, now)} ::
         TimeAccepted(card.utc, now) ==> Accepts(JudgeOf(server, now, true), hello, key, first)
  }

  /** Before it has taken the greeting, the server takes its client for nobody else than the user in it; afterwards for
      the user and client of the greeting. */
  ghost predicate Identified(server: Protocol, st: PairState, user: Option<Uid>, who: Caller<Uid>) {
    if st.server.greeted then who == Caller(user, st.card.clientId)
    else
      && who.client == 0
      && match st.talk
         case None => who == NOBODY
         case Some(t) => Names(server, t.hello, st.card, user) && (who.user == None || who.user == user)
  }

  /** From server to client. A server has a key only if the client has it, and nothing comes to a client without
      one. */
  ghost predicate DownAt(client: Protocol, key: Bytes, down: Link<U32, Inbound>, serverId: U32,
                         serverKey: Option<Bytes>, c: End, w: Traffic) {
    && Linked(FormatOf(client, key), down)
    && down.sender == serverId && down.inFlight == w.toClient && Flatten(Texts(down.sent)) == w.byServer && !c.raw
    && (serverKey.Some? ==> serverKey == Some(key) && c.key.Some?)
    && if c.key.Some? then ClientAt(client, key, down, c, w.atClient)
       else c.buf == [] && c.id == 1 && w.atClient == [] && down == Start(1, FRESH)
  }

  /** From client to server. */
  ghost predicate UpAt(server: Protocol, key: Bytes, card: Card, talk: Option<Talk>, greetingSent: bool,
                       clientId: U32, clientKey: Option<Bytes>, s: End, w: Traffic) {
    && !s.raw && Sane(s)
    && match talk
       case None =>
         && clientId == 1 && clientKey == StartKey(server) && (greetingSent ==> clientKey == None)
         && s == Fresh(server) && w.toServer == [] && w.atServer == [] && w.byClient == []
       case Some(t) =>
         && greetingSent && clientKey == Some(key) && Acceptable(server, key, card, t.hello, t.first)
         && ServerAt(server, key, t.hello, t.first, t.seen, t.up, w.toServer, s, w.atServer)
         && clientId == t.up.sender && t.first + Flatten(Texts(t.up.sent)) == w.byClient
  }

  ghost predicate PairAt(client: Protocol, server: Protocol, st: PairState) {
    var key := ClientKey(client);
    && Partners(client, server)
    && DownAt(client, key, st.down, st.serverId, st.server.key, st.client, st.traffic)
    && UpAt(server, key, st.card, st.talk, st.greetingSent, st.clientId, st.client.key, st.server, st.traffic)
  }

  /** In every state of a pair, each side has handed over a prefix of what the other has written, and all of it when
      nothing is in flight. */
  lemma PairDelivers(client: Protocol, server: Protocol, st: PairState)
    requires PairAt(client, server, st)
    ensures st.traffic.atServer <= st.traffic.byClient
            && (st.traffic.toServer == [] ==> st.traffic.atServer == st.traffic.byClient)
    ensures st.traffic.atClient <= st.traffic.byServer
            && (st.traffic.toClient == [] ==> st.traffic.atClient == st.traffic.byServer)
  {
    hide Linked, InLockStep, Framing, FormatOf, Partners, Acceptable;
    var key := ClientKey(client);
    LinkedFacts(FormatOf(client, key), st.down);
    if st.talk.Some? {
      LinkedFacts(FormatOf(server, key), st.talk.value.up);
    }
    assert Flatten(Texts(Start<U32, Inbound>(1, FRESH).sent)) == [];
  }

  /** A run of the encoder behind what has been sent, as an event of its link. */
  lemma WriteSends(f: Format, l: Link<U32, Inbound>, msgs: seq<Msg>, out: Bytes, now: U32)
    returns (l': Link<U32, Inbound>)
    requires Linked(f, l) && PackedSoFar(Framing(f), l.sender, msgs, out, now)
    ensures Linked(f, l')
    ensures l' == l.(sender := now, sent := l.sent + msgs, inFlight := l.inFlight + out)
    ensures Flatten(Texts(l'.sent)) == Flatten(Texts(l.sent)) + Flatten(Texts(msgs))
  {
    LinkSends(f, l, msgs);
    l' := Apply(Framing(f), l, Send(msgs));
    assert Texts(l'.sent) == Texts(l.sent) + Texts(msgs);
    FlattenAppend(Texts(l.sent), Texts(msgs));
  }

  /** The client's first write opens the conversation. */
  lemma FirstClientWrite(client: Protocol, server: Protocol, st: PairState, card: Card, d: Drawn, first: Bytes,
                         msgs: seq<Msg>, buffer: Bytes, out: Bytes, now: U32)
    returns (next: Option<Talk>)
    requires PairAt(client, server, st) && !st.greetingSent
    requires FirstWritten(client, card, d, first, msgs, out, now) && first + Flatten(Texts(msgs)) == buffer
    ensures next.Some? && Names(server, next.value.hello, card, UserOf(server, d.uid))
    ensures PairAt(client, server,
                   st.(talk := next, card := card, greetingSent := true, clientId := now,
                       client := st.client.(key := Some(ClientKey(client))),
                       traffic := st.traffic.(toServer := st.traffic.toServer + out,
                                              byClient := st.traffic.byClient + buffer)))
  {
    var key := ClientKey(client);
    var w := st.traffic.(toServer := st.traffic.toServer + out, byClient := st.traffic.byClient + buffer);
    hide Linked, Acceptable, Flatten, Texts, FirstWritten, ServerAt, DownAt, ClientKey, Names;
    assert [] + out == out && [] + buffer == buffer;
    var t := Opened(client, server, card, d, first, msgs, out, now);
    hide Partners;
    next := Some(t);
    KeyChanges(client, key, st.down, st.serverId, st.server.key, st.client, st.traffic, w);
  }

  /** A client gets its key; and this direction does not look at the traffic of the other. */
  lemma KeyChanges(client: Protocol, key: Bytes, down: Link<U32, Inbound>, serverId: U32, serverKey: Option<Bytes>,
                   c: End, w: Traffic, w': Traffic)
    requires DownAt(client, key, down, serverId, serverKey, c, w)
    requires w' == w.(toServer := w'.toServer, atServer := w'.atServer, byClient := w'.byClient)
    ensures DownAt(client, key, down, serverId, serverKey, c.(key := Some(key)), w')
  {
    hide Linked;
  }

  /** The client's first write is its greeting and a run of its direction. */
  lemma Opened(client: Protocol, server: Protocol, card: Card, d: Drawn, first: Bytes, msgs: seq<Msg>, out: Bytes,
               now: U32)
    returns (t: Talk)
    requires Partners(client, server) && FirstWritten(client, card, d, first, msgs, out, now)
    ensures var key := ClientKey(client);
            && Acceptable(server, key, card, t.hello, t.first)
            && ServerAt(server, key, t.hello, t.first, t.seen, t.up, out, Fresh(server), [])
            && now == t.up.sender && t.first == first && t.up.sent == msgs
            && Names(server, t.hello, card, UserOf(server, d.uid))
  {
    hide HelloOf, Linked, Framing, FormatOf, Teaches, Names, Accepts, JudgeOf, Sent, CanPackAll, AfterAll, Fit;
    var key := ClientKey(client);
    var hello := HelloOf(client, card, d, first);
    assert Fit(client, server, d.uid);
    HelloTeaches(client, server, card, d, first);
    HelloNames(client, server, card, d, first);
    forall now {:trigger TimeAccepted(card.utc, now)} | TimeAccepted(card.utc, now)
      ensures Accepts(JudgeOf(server, now, true), hello, key, first)
    {
      HandshakeAgreement(client, server, card, d, first, now);
    }
    hide Drawable;
    var up := WholeRun(FormatOf(client, key), msgs);
    assert out == hello + out[|hello|..];
    t := Talk(hello, first, 0, up);
    assert hello[..0] == [] && hello[0..] == hello;
  }

  /** What else the client writes; without a key, as after a first write of no bytes, it raises. */
  lemma LaterClientWrite(client: Protocol, server: Protocol, st: PairState, msgs: seq<Msg>, buffer: Bytes, out: Bytes,
                         now: U32)
    returns (next: Option<Talk>)
    requires PairAt(client, server, st) && st.greetingSent && st.client.key.Some? && Flatten(Texts(msgs)) == buffer
    requires PackedSoFar(Framing(FormatOf(client, st.client.key.value)), st.clientId, msgs, out, now)
    ensures st.talk.Some? && next.Some? && next.value.hello == st.talk.value.hello
    ensures PairAt(client, server,
                   st.(talk := next, clientId := now,
                       traffic := st.traffic.(toServer := st.traffic.toServer + out,
                                              byClient := st.traffic.byClient + buffer)))
  {
    hide Linked, Acceptable, Flatten, Texts, PackedSoFar, Framing, Fit, FormatOf;
    var key, t, w := ClientKey(client), st.talk.value, st.traffic;
    var up := WriteSends(FormatOf(server, key), t.up, msgs, out, now);
    next := Some(t.(up := up));
    assert (t.hello[t.seen..] + t.up.inFlight) + out == t.hello[t.seen..] + (t.up.inFlight + out);
    assert (t.first + Flatten(Texts(t.up.sent))) + buffer == t.first + (Flatten(Texts(t.up.sent)) + buffer);
    KeyChanges(client, key, st.down, st.serverId, st.server.key, st.client, w,
               w.(toServer := w.toServer + out, byClient := w.byClient + buffer));
  }

  /** A write without a key. */
  lemma NoWrite(client: Protocol, server: Protocol, st: PairState)
    requires PairAt(client, server, st) && st.client.key == None
    ensures PairAt(client, server, st.(greetingSent := true))
  {
    hide DownAt, Partners;
  }

  /** The server writes. */
  lemma ServerWrite(client: Protocol, server: Protocol, st: PairState, msgs: seq<Msg>, buffer: Bytes, out: Bytes,
                    now: U32)
    returns (link: Link<U32, Inbound>)
    requires PairAt(client, server, st) && st.server.key.Some? && Flatten(Texts(msgs)) == buffer
    requires PackedSoFar(Framing(FormatOf(server, st.server.key.value)), st.serverId, msgs, out, now)
    ensures PairAt(client, server,
                   st.(down := link, serverId := now,
                       traffic := st.traffic.(toClient := st.traffic.toClient + out,
                                              byServer := st.traffic.byServer + buffer)))
  {
    hide Linked, Acceptable, Flatten, Texts, PackedSoFar, Framing, Fit, FormatOf, ServerAt;
    link := WriteSends(FormatOf(client, ClientKey(client)), st.down, msgs, out, now);
  }

  /** Any number of bytes reach the server. */
  lemma ServerDelivery(client: Protocol, server: Protocol, compatible: bool, st: PairState, call: Call)
    returns (next: Option<Talk>)
    requires PairAt(client, server, st) && call.chunk <= st.traffic.toServer
    requires st.talk.Some? && !st.server.greeted ==> call.admitted && TimeAccepted(st.card.utc, call.now)
    ensures var (s', reply) := ServerCall(server, compatible, st.server, call);
            && reply.Data?
            && PairAt(client, server,
                      st.(talk := next, server := s',
                          traffic := st.traffic.(toServer := st.traffic.toServer[|call.chunk|..],
                                                 atServer := st.traffic.atServer + reply.out)))
    ensures if st.talk == None then next == None else next.Some? && next.value.hello == st.talk.value.hello
  {
    hide Partners, DownAt, ServerCall, ServerAt, Teaches, Accepts;
    var key, w := ClientKey(client), st.traffic;
    var (s', reply) := ServerCall(server, compatible, st.server, call);
    if st.talk.Some? {
      var t, n := st.talk.value, |call.chunk|;
      SeenUntilGreeted(server, key, t.hello, t.first, t.seen, t.up, w.toServer, st.server, w.atServer);
      ServerAdvances(server, compatible, call, key, t.hello, t.first, t.seen, t.up, w.toServer, st.server, w.atServer);
      var up := UpAfter(FormatOf(server, key), t.hello, t.seen, t.up, n);
      next := Some(t.(seen := SeenAfter(t.hello, t.seen, n), up := up));
      ServerKeys(server, key, t.hello, t.first, next.value.seen, up, w.toServer[n..], s', w.atServer + reply.out);
    } else {
      NothingArrives(server, compatible, call);
      next := None;
    }
    ServerLearns(client, server, st, s'.key, w.(toServer := w.toServer[|call.chunk|..],
                                                atServer := w.atServer + reply.out));
  }

  ghost predicate PairKnown(client: Protocol, server: Protocol, st: PairState, user: Option<Uid>, who: Caller<Uid>) {
    PairAt(client, server, st) && Identified(server, st, user, who)
  }

  /** The state once the server's reply to n bytes is in. */
  function Taken(st: PairState, talk: Option<Talk>, n: nat, reply: Reply): PairState
    requires n <= |st.traffic.toServer| && reply.Data?
  {
    st.(talk := talk, traffic := st.traffic.(toServer := st.traffic.toServer[n..],
                                             atServer := st.traffic.atServer + reply.out))
  }

  /** The answer of the tables to the greeting in the conversation. */
  predicate LetsIn(us: Tables<Option<Uid>>, max: int, user: Option<Uid>, card: Card, clock: real) {
    UserInserted(ReplayWindow.Idle, us, max, user, card.clientId, card.connectionId, clock).0
  }

  /** The bytes that a server waiting for the greeting has with one chunk more: part of it, or more than it. */
  lemma GreetingOrMore(p: Protocol, key: Bytes, hello: Bytes, first: Bytes, seen: nat, l: Link<U32, Inbound>,
                       wire: Bytes, e: End, out: Bytes, chunk: Bytes)
    requires ServerAt(p, key, hello, first, seen, l, wire, e, out) && !e.greeted && chunk <= wire
    ensures e.buf + chunk < hello || hello <= e.buf + chunk
  {
    hide Linked;
    if seen + |chunk| < |hello| {
      GreetingGrows(hello, seen, l.inFlight, wire, |chunk|);
    } else {
      GreetingComplete(hello, seen, l.inFlight, wire, |chunk|);
    }
  }

  /** The tables are asked about the client of the conversation, or not at all; so the call is as it is for an id that
      is let in. */
  lemma GuardedIsPlain(client: Protocol, server: Protocol, compatible: bool, st: PairState, chunk: Bytes, max: int,
                       us: Tables<Option<Uid>>, user: Option<Uid>, who: Caller<Uid>, now: U32, clock: real)
    requires Sane(st.server) && PairKnown(client, server, st, user, who) && chunk <= st.traffic.toServer
    requires st.talk.Some? && !st.server.greeted ==>
               TimeAccepted(st.card.utc, now) && LetsIn(us, max, user, st.card, clock)
    ensures var r := GuardedCall(server, compatible, max, st.server, who, us, chunk, now, clock);
            && (r.end, r.reply) == ServerCall(server, compatible, st.server, Call(chunk, now, true))
            && (r.end.greeted ==> r.who == Caller(user, st.card.clientId))
            && (!r.end.greeted ==> r.who.client == 0)
            && (!r.end.greeted && st.talk.Some? ==> r.who.user == None || r.who.user == user)
            && (!r.end.greeted && st.talk == None ==> r.who.user == None)
  {
    hide Partners, DownAt, ServerCall, ServerAt, Teaches, UserInserted, TimeAccepted, HeadFails;
    if !st.server.greeted {
      var received := st.server.buf + chunk;
      GreetedWithCard(server, compatible, st.server, chunk, now);
      if st.talk.Some? {
        var t, w := st.talk.value, st.traffic;
        GreetingOrMore(server, ClientKey(client), t.hello, t.first, t.seen, t.up, w.toServer, st.server, w.atServer,
                       chunk);
        var card, named := CardOf(server, now, received), UserNamed(server, received, who.user);
        assert named == None || named == user;
        if received < t.hello {
          assert JudgeOf(server, now, true)(received) == Wait;
        } else {
          assert card.Some? ==> card == Some(st.card) && named == user;
        }
        hide UserNamed, CardOf;
      } else {
        assert received == [] && CardOf(server, now, []) == None;
      }
    } else {
      StaysGreeted(server, compatible, st.server, Call(chunk, now, true));
    }
  }

  lemma GuardedDelivery(client: Protocol, server: Protocol, compatible: bool, st: PairState, chunk: Bytes, max: int,
                        us: Tables<Option<Uid>>, user: Option<Uid>, who: Caller<Uid>, now: U32, clock: real)
    returns (next: Option<Talk>)
    requires PairKnown(client, server, st, user, who) && chunk <= st.traffic.toServer
    requires st.talk.Some? && !st.server.greeted ==>
               TimeAccepted(st.card.utc, now) && LetsIn(us, max, user, st.card, clock)
    ensures Sane(st.server)
    ensures var r := GuardedCall(server, compatible, max, st.server, who, us, chunk, now, clock);
            && r.reply.Data?
            && PairKnown(client, server, Taken(st.(server := r.end), next, |chunk|, r.reply), user, r.who)
  {
    hide ServerCall, PairAt, GuardedCall, Names, LetsIn, UserNamed;
    KnownServer(client, server, st, user, who);
    GuardedIsPlain(client, server, compatible, st, chunk, max, us, user, who, now, clock);
    next := ServerDelivery(client, server, compatible, st, Call(chunk, now, true));
    if st.server.greeted {
      StaysGreeted(server, compatible, st.server, Call(chunk, now, true));
    }
  }

  /** The server's key is the client's, from when it has one. */
  lemma ServerLearns(client: Protocol, server: Protocol, st: PairState, serverKey: Option<Bytes>, w: Traffic)
    requires PairAt(client, server, st)
    requires serverKey == StartKey(server) || (st.talk.Some? && serverKey == Some(ClientKey(client)))
    requires w == st.traffic.(toServer := w.toServer, atServer := w.atServer)
    ensures DownAt(client, ClientKey(client), st.down, st.serverId, serverKey, st.client, w)
  {
    hide Linked, Acceptable, ServerAt;
  }

  lemma SeenUntilGreeted(p: Protocol, key: Bytes, hello: Bytes, first: Bytes, seen: nat, l: Link<U32, Inbound>,
                         wire: Bytes, e: End, out: Bytes)
    requires ServerAt(p, key, hello, first, seen, l, wire, e, out)
    ensures seen < |hello| <==> !e.greeted
  {
  }

  lemma ServerKeys(p: Protocol, key: Bytes, hello: Bytes, first: Bytes, seen: nat, l: Link<U32, Inbound>, wire: Bytes,
                   e: End, out: Bytes)
    requires ServerAt(p, key, hello, first, seen, l, wire, e, out)
    ensures !e.raw && (e.key == StartKey(p) || e.key == Some(key))
  {
  }

  lemma NothingArrives(p: Protocol, compatible: bool, c: Call)
    requires c.chunk == []
    ensures ServerCall(p, compatible, Fresh(p), c) == (Fresh(p), Data([], false))
  {
  }

  /** Any number of bytes reach the client. */
  lemma ClientDelivery(client: Protocol, server: Protocol, st: PairState, n: nat) returns (link: Link<U32, Inbound>)
    requires PairAt(client, server, st) && n <= |st.traffic.toClient|
    ensures var (c', reply) := ClientCall(client, st.client, st.traffic.toClient[..n]);
            && reply.Data?
            && PairAt(client, server,
                      st.(down := link, client := c',
                          traffic := st.traffic.(toClient := st.traffic.toClient[n..],
                                                 atClient := st.traffic.atClient + reply.out)))
  {
    hide Partners, Acceptable, ServerAt, Flatten, Texts, FormatOf, Framing, Linked;
    var key, w := ClientKey(client), st.traffic;
    if st.client.key.Some? {
      hide ClientCall;
      link := Apply(Framing(FormatOf(client, key)), st.down, Deliver(n));
      ClientAdvances(client, key, st.down, st.client, w.atClient, n);
      LinkOf(client, key, st.down, st.client, w.atClient);
    } else {
      link := st.down;
    }
  }

  class Pair {
    const client: AuthEnd
    const server: AuthEnd
    var toServer: Bytes
    var toClient: Bytes
    var atServer: Bytes
    var atClient: Bytes
    ghost var byClient: Bytes
    ghost var byServer: Bytes
    ghost var card: Card
    ghost var talk: Option<Talk>
    ghost var down: Link<U32, Inbound>
    ghost var user: Option<Uid>

    /** A client and a server that have not exchanged anything yet. */
    constructor (client: AuthEnd, server: AuthEnd)
      requires client != server && Partners(client.proto, server.proto) && client.mss <= MAX_MSS
               && server.mss <= MAX_MSS
      requires !client.hasSentHeader && client.packId == 1 && client.View() == Fresh(client.proto)
      requires server.packId == 1 && server.View() == Fresh(server.proto) && server.Who() == NOBODY
      ensures this.client == client && this.server == server && Valid() && Moved() == Traffic([], [], [], [], [], [])
    {
      this.client, this.server := client, server;
      toServer, toClient, atServer, atClient := [], [], [], [];
      byClient, byServer := [], [];
      card := Card(0, 0, 0);
      talk, down, user := None, Start(1, FRESH), None;
      hide PairAt, Partners;
      PairStarts(client.proto, server.proto, Card(0, 0, 0));
    }

    ghost function Moved(): Traffic reads this {
      Traffic(toServer, atServer, byClient, toClient, atClient, byServer)
    }

    ghost function State(): PairState reads this, client, server {
      PairState(card, talk, down, client.hasSentHeader, client.packId, client.View(), server.packId, server.View(),
                Moved())
    }

    ghost predicate Valid() reads this, client, server {
      && client != server && client.mss <= MAX_MSS && server.mss <= MAX_MSS
      && PairKnown(client.proto, server.proto, State(), user, server.Who())
    }

    /** Whatever has happened, each side has handed over a prefix of what the other has written, and all of it when
        nothing is in flight. */
    lemma Delivers()
      requires Valid()
      ensures atServer <= byClient && (toServer == [] ==> atServer == byClient)
      ensures atClient <= byServer && (toClient == [] ==> atClient == byServer)
    {
      hide PairAt;
      PairDelivers(client.proto, server.proto, State());
    }

    /** The server's call; nothing else changes. */
    method CallServer(chunk: Bytes, data: UserData<Option<Uid>>, now: U32, clock: real) returns (reply: Reply)
      requires client != server && Sane(server.View()) && data.Valid() && data.rule == ReplayWindow.Idle
      modifies server, data, data.tables.Values
      ensures data.Valid() && fresh(data.tables.Values - old(data.tables.Values))
      ensures State() == old(State()).(server := server.View())
      ensures Outcome(server.View(), server.Who(), data.View(), reply) ==
              GuardedCall(server.proto, server.compatible, data.maxClient, old(server.View()), old(server.Who()),
                          old(data.View()), chunk, now, clock)
    {
      hide GuardedCall;
      reply := server.ServerPostDecrypt(chunk, data, now, clock);
    }

    /** The network delivers n bytes to the server. Until it has taken the greeting, its clock and the tables of
        clients, which it shares with other connections, decide about it. */
    method DeliverToServer(n: nat, data: UserData<Option<Uid>>, now: U32, clock: real) returns (reply: Reply)
      requires Valid() && n <= |toServer| && data.Valid() && data.rule == ReplayWindow.Idle
      requires talk.Some? && !server.hasRecvHeader ==>
                 TimeAccepted(card.utc, now) && LetsIn(data.View(), data.maxClient, user, card, clock)
      modifies this, server, data, data.tables.Values
      ensures Valid() && reply.Data? && data.Valid() && fresh(data.tables.Values - old(data.tables.Values))
      ensures Moved() == old(Moved()).(toServer := old(toServer)[n..], atServer := old(atServer) + reply.out)
    {
      ghost var st := State();
      hide PairKnown, GuardedCall, TimeAccepted, LetsIn, data.Valid, data.View;
      ghost var t := GuardedDelivery(client.proto, server.proto, server.compatible, st, toServer[..n], data.maxClient,
                                     data.View(), user, server.Who(), now, clock);
      reply := CallServer(toServer[..n], data, now, clock);
      talk := t;
      toServer := toServer[n..];
      atServer := atServer + reply.out;
    }

    /** The network delivers n bytes to the client. */
    method DeliverToClient(n: nat) returns (reply: Reply)
      requires Valid() && n <= |toClient|
      modifies this, client
      ensures Valid() && reply.Data?
      ensures Moved() == old(Moved()).(toClient := old(toClient)[n..], atClient := old(atClient) + reply.out)
    {
      ghost var st := State();
      hide PairAt, ClientCall;
      reply := client.ClientPostDecrypt(toClient[..n]);
      down := ClientDelivery(client.proto, server.proto, st, n);
      toClient := toClient[n..];
      atClient := atClient + reply.out;
    }

    /** What the client has to say, if it has a key, with the conversation as it is once the bytes are on the wire. */
    method PackAtClient(buffer: Bytes, card: Card, jitter: nat)
      returns (out: Option<Bytes>, ghost t: Option<Talk>, ghost u: Option<Uid>)
      requires Valid() && jitter <= 31
      modifies client
      ensures out == None <==> if old(client.hasSentHeader) then old(client.userKey) == None
                               else client.proto.AuthAes128? && buffer == []
      ensures var st := if out.Some? then
                          State().(talk := t, card := if talk.Some? then this.card else card,
                                   traffic := Moved().(toServer := toServer + out.value, byClient := byClient + buffer))
                        else State();
              PairAt(client.proto, server.proto, st) && Identified(server.proto, st, u, server.Who())
    {
      ghost var st := State();
      hide PairAt, FirstWritten, PackedSoFar, Flatten, Texts, Framing, FormatOf, ClientKey, Names;
      ClientReady(client.proto, server.proto, st);
      ghost var d, first, msgs;
      t, u := talk, user;
      out, d, first, msgs := client.ClientPreEncrypt(buffer, card, jitter);
      if out == None {
        NoWrite(client.proto, server.proto, st);
      } else if st.greetingSent {
        t := LaterClientWrite(client.proto, server.proto, st, msgs, buffer, out.value, client.packId);
      } else {
        t := FirstClientWrite(client.proto, server.proto, st, card, d, first, msgs, buffer, out.value, client.packId);
        u := UserOf(server.proto, d.uid);
      }
    }

    /** The client writes; its first write begins with the greeting. An auth_aes128 client whose first write is empty
        raises, then and ever after. */
    method ClientWrites(buffer: Bytes, card: Card, jitter: nat) returns (sent: bool)
      requires Valid() && jitter <= 31
      modifies this, client
      ensures Valid() && (talk.Some? ==> this.card == if old(talk).Some? then old(this.card) else card)
      ensures !sent <==> if old(client.hasSentHeader) then old(client.userKey) == None
                         else client.proto.AuthAes128? && buffer == []
      ensures Moved() == if sent then old(Moved()).(toServer := toServer, byClient := old(byClient) + buffer)
                         else old(Moved())
    {
      hide PairAt, Identified;
      var out; ghost var t, u;
      out, t, u := PackAtClient(buffer, card, jitter);
      sent := out.Some?;
      user := u;
      if sent {
        this.card := if talk.Some? then this.card else card;
        talk := t;
        toServer := toServer + out.value;
        byClient := byClient + buffer;
      }
    }

    /** What the server has to say, if it has a key. */
    method PackAtServer(buffer: Bytes) returns (out: Option<Bytes>, ghost l: Link<U32, Inbound>)
      requires Valid()
      modifies server
      ensures server.View() == old(server.View()) && server.Who() == old(server.Who())
      ensures out == None <==> server.userKey == None
      ensures var st := if out.Some? then
                          State().(down := l, traffic := Moved().(toClient := toClient + out.value,
                                                                  byServer := byServer + buffer))
                        else State();
              PairAt(client.proto, server.proto, st)
    {
      ghost var st := State();
      hide PairAt, PackedSoFar, Flatten, Texts, Framing, FormatOf;
      SaneServer(client.proto, server.proto, st);
      ghost var msgs;
      l := down;
      out, msgs := server.ServerPreEncrypt(buffer);
      if out.Some? {
        l := ServerWrite(client.proto, server.proto, st, msgs, buffer, out.value, server.packId);
      }
    }

    /** The server writes; an auth_aes128 server raises until it has learned the key from a greeting. */
    method ServerWrites(buffer: Bytes) returns (sent: bool)
      requires Valid()
      modifies this, server
      ensures Valid() && sent == server.userKey.Some? && server.View() == old(server.View())
      ensures Moved() == if sent then old(Moved()).(toClient := toClient, byServer := old(byServer) + buffer)
                         else old(Moved())
    {
      hide PairAt, Names;
      var out; ghost var l;
      out, l := PackAtServer(buffer);
      sent := out.Some?;
      if sent {
        down := l;
        toClient := toClient + out.value;
        byServer := byServer + buffer;
      }
    }
  }

  lemma PairStarts(client: Protocol, server: Protocol, card: Card)
    requires Partners(client, server)
    ensures PairAt(client, server, PairState(card, None, Start(1, FRESH), false, 1, Fresh(client), 1, Fresh(server),
                                             Traffic([], [], [], [], [], [])))
  {
    hide Fit, FormatOf, Linked, Framing;
    LinkStarts(FormatOf(client, ClientKey(client)));
    assert Flatten(Texts(Start<U32, Inbound>(1, FRESH).sent)) == [];
  }

  lemma KnownServer(client: Protocol, server: Protocol, st: PairState, user: Option<Uid>, who: Caller<Uid>)
    requires PairKnown(client, server, st, user, who)
    ensures Sane(st.server)
  {
    hide Identified;
    SaneServer(client, server, st);
  }

  lemma SaneServer(client: Protocol, server: Protocol, st: PairState)
    requires PairAt(client, server, st)
    ensures Sane(st.server) && !st.server.raw
  {
    hide Partners, DownAt;
  }

  lemma ClientReady(client: Protocol, server: Protocol, st: PairState)
    requires PairAt(client, server, st)
    ensures !st.greetingSent ==> st.talk == None && st.clientId == 1 && st.client.key == StartKey(client)
    ensures if st.talk.Some? then st.client.key.Some? else !st.server.greeted
    ensures st.greetingSent && st.client.key.Some? ==> st.talk.Some?
  {
    hide DownAt, ServerAt, Acceptable;
  }
}
