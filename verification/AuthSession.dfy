/**
 * Whole auth_sha1_v4 and auth_aes128 connections on values, from the first byte: greeting, writes, and calls with
 * chunks of any size, in both directions. ServerCall and ClientCall are what the methods of AuthStream.dfy are proved
 * equal to; AuthPair.dfy connects the objects themselves.
 */
module AuthSession {
  import opened AuthEnds
  import opened AuthFrames
  import opened AuthGreeting
  import opened AuthStream
  import opened ByteStrings
  import opened FrameLink
  import opened FrameLoop
  import opened Options
  import opened StreamBasics

  /** The two configurations fit: same checks and keys, the server's IV of this stream is the client's, and the
      server's key for the user id sent is the one the client signs with. */
  ghost predicate Fit(client: Protocol, server: Protocol, uid: Uid) {
    match client
    case AuthSha1V4(sha1, adler32) => server.AuthSha1V4? && server.sha1 == sha1 && server.adler32 == adler32
    case AuthAes128(aes, _, _, param) =>
      && server.AuthAes128? && server.aes == aes && GoodCipher(aes)
      && match param
         case Some(user) => KeyIs(aes, server.users, uid, aes.hash(user.key))
         case None => KeyIs(aes, server.users, uid, aes.key)
  }

  /** The server learns no key but this one from the bytes of a greeting. */
  ghost predicate Teaches(p: Protocol, hello: Bytes, key: Bytes) {
    forall w, k {:trigger KeyAfter(p, w, k)} :: w <= hello ==> KeyAfter(p, w, k) == k || KeyAfter(p, w, k) == Some(key)
  }

  /** The handshake: a server that fits takes the first payload and the key from exactly the client's greeting,
      whatever follows, and waits for all of it. */
  lemma HandshakeAgreement(client: Protocol, server: Protocol, card: Card, d: Drawn, first: Bytes, now: U32)
    requires Fit(client, server, d.uid) && Drawable(client, d, first) && TimeAccepted(card.utc, now)
    ensures Accepts(JudgeOf(server, now, true), HelloOf(client, card, d, first), ClientKey(client), first)
    ensures FormatOf(server, ClientKey(client)) == FormatOf(client, ClientKey(client))
  {
    hide Sha1Hello, AesHello, TimeAccepted, LookupKey, Accepts, TellsSize;
    match client {
      case AuthSha1V4(sha1, _) => Sha1Accepts(sha1, d.rnd, card, first, now);
      case AuthAes128(aes, _, _, _) => AesAccepts(aes, server.users, server.extra, ClientKey(client), card, d, first,
                                                  now);
    }
  }

  lemma HelloTeaches(client: Protocol, server: Protocol, card: Card, d: Drawn, first: Bytes)
    requires Fit(client, server, d.uid) && Drawable(client, d, first)
    ensures HelloOf(client, card, d, first) != [] && Teaches(server, HelloOf(client, card, d, first), ClientKey(client))
  {
    hide LookupKey, TellsSize, HeadFails;
    if client.AuthAes128? {
      var hello := AesHello(client.aes, ClientKey(client), card, d, first);
      KeyLookedUp(server.aes, server.users, d.uid, ClientKey(client));
      UidOfHello(client.aes, ClientKey(client), card, d, first);
      hide AesHello;
      forall w, k {:trigger KeyAfter(server, w, k)} | w <= hello
        ensures KeyAfter(server, w, k) == k || KeyAfter(server, w, k) == Some(ClientKey(client))
      {
        if |w| >= 31 {
          assert w[7..11] == hello[7..11];
        }
      }
    }
  }

  /** A server that has 31 bytes of a greeting knows the key; one that has fewer knows what it knew. */
  lemma KeyLearned(client: Protocol, server: Protocol, card: Card, d: Drawn, first: Bytes, w: Bytes, k: Option<Bytes>)
    requires client.AuthAes128? && Fit(client, server, d.uid) && Drawable(client, d, first)
    requires w <= HelloOf(client, card, d, first)
    ensures KeyAfter(server, w, k) == if |w| < 31 then k else Some(ClientKey(client))
  {
    hide LookupKey, AesCore, AesBody;
    KeyLookedUp(server.aes, server.users, d.uid, ClientKey(client));
    var hello := AesHello(client.aes, ClientKey(client), card, d, first);
    AesParts(client.aes, ClientKey(client), card, d, first, []);
    UidOfHello(client.aes, ClientKey(client), card, d, first);
    hide AesHello;
    assert hello + [] == hello;
    if |w| >= 31 {
      assert w[..1] == hello[..1] && w[1..7] == hello[1..7] && w[7..11] == hello[7..11];
      assert w[7..27] == hello[7..27] && w[27..31] == hello[27..31];
    }
  }

  lemma UidOfHello(p: Aes, userKey: Bytes, card: Card, d: Drawn, first: Bytes)
    requires FitsSize(d.rnd, first)
    ensures AesHello(p, userKey, card, d, first)[7..11] == d.uid
  {
    hide AesHello, AesCore;
    AesParts(p, userKey, card, d, first, []);
    assert AesHello(p, userKey, card, d, first) + [] == AesHello(p, userKey, card, d, first);
    CoreParts(p, userKey, card, d, first, AesHello(p, userKey, card, d, first));
  }

  // ----- one direction -----

  const FRESH := Inbound(1, false)

  /** The decoder is where it would be had all bytes delivered so far come at once, and has not failed. */
  ghost predicate Linked(f: Format, l: Link<U32, Inbound>) {
    Consistent(Framing(f), 1, FRESH, l) && l.verdict == More
  }

  lemma LinkStarts(f: Format)
    ensures Linked(f, Start(1, FRESH))
  {
    TurnsRegular(f);
    StartConsistent(Framing(f), 1, FRESH);
  }

  lemma {:induction false} LinkSends(f: Format, l: Link<U32, Inbound>, msgs: seq<Msg>)
    requires Linked(f, l) && CanPackAll(Framing(f), l.sender, msgs)
    ensures Linked(f, Apply(Framing(f), l, Send(msgs)))
  {
    SendConsistent(Framing(f), 1, FRESH, l, msgs);
  }

  lemma LinkFacts(f: Format, l: Link<U32, Inbound>) returns (k: nat)
    requires Consistent(Framing(f), 1, FRESH, l)
    ensures Delivering(Framing(f), 1, l, k)
  {
    hide DecodeStep, Frame, Packable, Matched;
    FramingMatched(f);
    k := ConsistentDelivers(Framing(f), 1, FRESH, l);
  }

  lemma LinkDelivers(f: Format, l: Link<U32, Inbound>, n: nat)
    requires Linked(f, l) && n <= |l.inFlight|
    ensures Linked(f, Apply(Framing(f), l, Deliver(n)))
  {
    hide DecodeStep, Frame, Packable, Matched, Decode, Consistent;
    FramingMatched(f);
    DeliverConsistent(Framing(f), 1, FRESH, l, n);
    var k := LinkFacts(f, Apply(Framing(f), l, Deliver(n)));
  }

  /** The frames of one call, as the link and as the end sees them. */
  lemma LinkDecodes(f: Format, l: Link<U32, Inbound>, n: nat, asked: bool)
    requires Linked(f, l) && n <= |l.inFlight|
    ensures var l' := Apply(Framing(f), l, Deliver(n));
            var r := Decode(Turns(f), Inbound(l.receiver.id, asked), l.buf + l.inFlight[..n]);
            && Linked(f, l') && r.verdict == More && l'.receiver.id == r.state.id && l'.buf == r.rest
            && Flatten(l'.got) == Flatten(l.got) + Flatten(r.frames)
  {
    hide Turns, Decode, Flatten, Consistent;
    LinkDelivers(f, l, n);
    AskedAside(f, l.receiver.id, l.receiver.asked, asked, l.buf + l.inFlight[..n]);
    FlattenAppend(l.got, Decode(Turns(f), l.receiver, l.buf + l.inFlight[..n]).frames);
  }

  // ----- client to server -----

  /** The server after the first seen bytes of the greeting hello, with its payload first, and, once that is whole,
      what the link l has delivered; wire is what it has not received yet and out what it has output. */
  ghost predicate ServerAt(p: Protocol, key: Bytes, hello: Bytes, first: Bytes, seen: nat, l: Link<U32, Inbound>,
                           wire: Bytes, e: End, out: Bytes) {
    && seen <= |hello| && wire == hello[seen..] + l.inFlight && Linked(FormatOf(p, key), l) && !e.raw
    && if seen < |hello| then
         && !e.greeted && e.id == 1 && e.buf == hello[..seen] && (e.key == StartKey(p) || e.key == Some(key))
         && l.got == [] && l.buf == [] && l.receiver == FRESH && out == []
       else
         && e.greeted && e.key == Some(key) && e.id == l.receiver.id && e.buf == l.buf && out == first + Flatten(l.got)
  }

  function SeenAfter(hello: Bytes, seen: nat, n: nat): nat {
    Min(seen + n, |hello|)
  }

  function UpAfter(f: Format, hello: Bytes, seen: nat, l: Link<U32, Inbound>, n: nat): Link<U32, Inbound>
    requires seen + n >= |hello| ==> seen + n - |hello| <= |l.inFlight|
  {
    if seen + n < |hello| then l else Apply(Framing(f), l, Deliver(seen + n - |hello|))
  }

  /** The call that completes the greeting. */
  lemma ServerGreets(p: Protocol, compatible: bool, c: Call, key: Bytes, hello: Bytes, first: Bytes, seen: nat,
                     l: Link<U32, Inbound>, wire: Bytes, e: End)
    requires ServerAt(p, key, hello, first, seen, l, wire, e, []) && Sane(e) && c.chunk <= wire
    requires seen < |hello| <= seen + |c.chunk| && c.admitted && Accepts(JudgeOf(p, c.now, true), hello, key, first)
    ensures var m := seen + |c.chunk| - |hello|;
            var (e', reply) := ServerCall(p, compatible, e, c);
            && m <= |l.inFlight| && reply.Data?
            && ServerAt(p, key, hello, first, |hello|, Apply(Framing(FormatOf(p, key)), l, Deliver(m)),
                        wire[|c.chunk|..], e', reply.out)
  {
    hide Decode, Linked, Framing, Turns, JudgeOf, FormatOf, KeyAfter;
    var m := seen + |c.chunk| - |hello|;
    GreetingComplete(hello, seen, l.inFlight, wire, |c.chunk|);
    var received := e.buf + c.chunk;
    assert received == hello + l.inFlight[..m];
    assert JudgeOf(p, c.now, true)(received) == Greeted(key, first, |hello|);
    assert Slice(received, |hello|, |received|) == l.inFlight[..m] && hello[|hello|..] == [];
    assert l.buf + l.inFlight[..m] == l.inFlight[..m] && [] + l.inFlight[m..] == l.inFlight[m..];
    assert Flatten([]) == [] && forall x: Bytes {:trigger [] + x} :: [] + x == x;
    hide Flatten, Slice;
    LinkDecodes(FormatOf(p, key), l, m, true);
  }

  /** One call of the server, with any number of the bytes on the wire: it hands over data, and the clock and the table
      of clients matter for the greeting alone. */
  lemma ServerAdvances(p: Protocol, compatible: bool, c: Call, key: Bytes, hello: Bytes, first: Bytes, seen: nat,
                       l: Link<U32, Inbound>, wire: Bytes, e: End, out: Bytes)
    requires ServerAt(p, key, hello, first, seen, l, wire, e, out) && Sane(e) && c.chunk <= wire
    requires seen < |hello| ==>
               c.admitted && Accepts(JudgeOf(p, c.now, true), hello, key, first) && Teaches(p, hello, key)
    ensures var n := |c.chunk|;
            var (e', reply) := ServerCall(p, compatible, e, c);
            && reply.Data?
            && (seen + n >= |hello| ==> seen + n - |hello| <= |l.inFlight|)
            && ServerAt(p, key, hello, first, SeenAfter(hello, seen, n), UpAfter(FormatOf(p, key), hello, seen, l, n),
                        wire[n..],
                        e', out + reply.out)
  {
    hide Decode, Flatten, Linked, Framing, Turns, JudgeOf, FormatOf, KeyAfter, Slice;
    var n := |c.chunk|;
    if seen == |hello| {
      assert wire == l.inFlight && c.chunk == wire[..n] by {
        assert hello[seen..] == [];
      }
      ServerKeepsOn(p, compatible, c, key, hello, first, l, e, out);
    } else if seen + n < |hello| {
      GreetingGrows(hello, seen, l.inFlight, wire, n);
      assert e.buf + c.chunk < hello;
    } else {
      ServerGreets(p, compatible, c, key, hello, first, seen, l, wire, e);
      assert [] + ServerCall(p, compatible, e, c).1.out == ServerCall(p, compatible, e, c).1.out;
    }
  }

  lemma ServerKeepsOn(p: Protocol, compatible: bool, c: Call, key: Bytes, hello: Bytes, first: Bytes,
                      l: Link<U32, Inbound>, e: End, out: Bytes)
    requires ServerAt(p, key, hello, first, |hello|, l, l.inFlight, e, out) && Sane(e) && c.chunk <= l.inFlight
    ensures var n := |c.chunk|;
            var (e', reply) := ServerCall(p, compatible, e, c);
            && reply.Data?
            && ServerAt(p, key, hello, first, |hello|, Apply(Framing(FormatOf(p, key)), l, Deliver(n)),
                        l.inFlight[n..], e', out + reply.out)
  {
    hide Decode, Flatten, Linked, Framing, Turns, JudgeOf, FormatOf, KeyAfter, Slice;
    var n := |c.chunk|;
    assert c.chunk == l.inFlight[..n];
    LinkDecodes(FormatOf(p, key), l, n, false);
    var more := Flatten(Decode(Turns(FormatOf(p, key)), Inbound(e.id, false), e.buf + c.chunk).frames);
    assert [] + more == more && (first + Flatten(l.got)) + more == first + (Flatten(l.got) + more);
    assert hello[|hello|..] == [] && [] + l.inFlight[n..] == l.inFlight[n..];
  }

  // ----- server to client -----

  /** The client after what the link l has delivered. */
  ghost predicate ClientAt(p: Protocol, key: Bytes, l: Link<U32, Inbound>, e: End, out: Bytes) {
    && Linked(FormatOf(p, key), l)
    && !e.raw && e.key == Some(key) && e.id == l.receiver.id && e.buf == l.buf && out == Flatten(l.got)
  }

  /** One call of the client, with any number of the bytes in flight. */
  lemma ClientAdvances(p: Protocol, key: Bytes, l: Link<U32, Inbound>, e: End, out: Bytes, n: nat)
    requires ClientAt(p, key, l, e, out) && n <= |l.inFlight|
    ensures var (e', reply) := ClientCall(p, e, l.inFlight[..n]);
            && reply.Data? && ClientAt(p, key, Apply(Framing(FormatOf(p, key)), l, Deliver(n)), e', out + reply.out)
  {
    hide Decode, Flatten, Linked, Framing, Turns, FormatOf;
    LinkDecodes(FormatOf(p, key), l, n, false);
  }

  // ----- runs of calls -----

  function ServerRun(p: Protocol, compatible: bool, calls: seq<Call>): (r: (End, seq<Reply>))
    ensures Sane(r.0)
  {
    if calls == [] then (Fresh(p), [])
    else
      var (e, replies) := ServerRun(p, compatible, calls[..|calls| - 1]);
      var (e', reply) := ServerCall(p, compatible, e, calls[|calls| - 1]);
      (e', replies + [reply])
  }

  /** How many of the calls have handed over data. */
  function DataCalls(replies: seq<Reply>): nat {
    if replies == [] then 0
    else DataCalls(replies[..|replies| - 1]) + if Delivered(replies[|replies| - 1]) != [] then 1 else 0
  }

  lemma CountsCall(p: Protocol, compatible: bool, e: End, c: Call)
    requires Sane(e) && !ServerCall(p, compatible, e, c).0.raw
    ensures var (e', reply) := ServerCall(p, compatible, e, c);
            !e.raw && e'.count == e.count + if p.AuthSha1V4? && Delivered(reply) != [] then 1 else 0
  {
    hide FormatOf, JudgeOf, KeyAfter, Turns, Decode, Flatten, Slice;
  }

  lemma {:induction false} CountsDataCalls(p: Protocol, compatible: bool, calls: seq<Call>)
    ensures var (e, replies) := ServerRun(p, compatible, calls);
            e.raw || e.count == if p.AuthSha1V4? then DataCalls(replies) else 0
  {
    if calls != [] {
      var init, c := calls[..|calls| - 1], calls[|calls| - 1];
      CountsDataCalls(p, compatible, init);
      var (e, replies) := ServerRun(p, compatible, init);
      var (e', reply) := ServerCall(p, compatible, e, c);
      hide ServerCall;
      if !e'.raw {
        CountsCall(p, compatible, e, c);
      }
      assert (replies + [reply])[..|replies|] == replies;
    }
  }

  /** When frames fail behind a greeting, a server of auth_sha1_v4 sends the 2048 letters if no call has handed over
      data before and raises otherwise; a server of auth_aes128 raises, but for a frame with the number 0. */
  lemma {:induction false} FailureSaid(p: Protocol, compatible: bool, calls: seq<Call>, c: Call)
    requires !ServerRun(p, compatible, calls).0.raw
    requires ServerCall(p, compatible, ServerRun(p, compatible, calls).0, c).0.raw
    requires ServerCall(p, compatible, ServerRun(p, compatible, calls).0, c).0.greeted
    ensures var (e, replies) := ServerRun(p, compatible, calls);
            var (e', reply) := ServerCall(p, compatible, e, c);
            && (reply == Raised || reply == Rejected)
            && (reply == Rejected <==> if p.AuthSha1V4? then DataCalls(replies) == 0 else e'.id == 0)
  {
    hide FormatOf, JudgeOf, KeyAfter, Turns, Decode, Flatten, Slice, ServerRun, DataCalls;
    CountsDataCalls(p, compatible, calls);
  }

  function ClientRun(p: Protocol, e: End, chunks: seq<Bytes>): (End, seq<Reply>) {
    if chunks == [] then (e, [])
    else
      var (e1, replies) := ClientRun(p, e, chunks[..|chunks| - 1]);
      var (e2, reply) := ClientCall(p, e1, chunks[|chunks| - 1]);
      (e2, replies + [reply])
  }

  /** The calls that come before the greeting is whole find a server that takes it. */
  ghost predicate Welcoming(p: Protocol, hello: Bytes, key: Bytes, first: Bytes, calls: seq<Call>) {
    forall i :: 0 <= i < |calls| && |Received(calls[..i])| < |hello| ==>
      calls[i].admitted && Accepts(JudgeOf(p, calls[i].now, true), hello, key, first)
  }

  lemma WelcomingBefore(p: Protocol, hello: Bytes, key: Bytes, first: Bytes, calls: seq<Call>)
    requires calls != [] && Welcoming(p, hello, key, first, calls)
    ensures Welcoming(p, hello, key, first, calls[..|calls| - 1])
  {
    hide Accepts;
    var init := calls[..|calls| - 1];
    forall i | 0 <= i < |init| && |Received(init[..i])| < |hello|
      ensures init[i].admitted && Accepts(JudgeOf(p, init[i].now, true), hello, key, first)
    {
      assert init[..i] == calls[..i];
    }
  }

  /** Where the calls have brought a fresh server, with rest still to come. */
  ghost predicate ServerRunsTo(p: Protocol, compatible: bool, key: Bytes, hello: Bytes, first: Bytes,
                               calls: seq<Call>, rest: Bytes, msgs: seq<Msg>, seen: nat, l: Link<U32, Inbound>) {
    var (e, replies) := ServerRun(p, compatible, calls);
    && AllData(replies) && l.sent == msgs && seen == Min(|Received(calls)|, |hello|)
    && ServerAt(p, key, hello, first, seen, l, rest, e, Output(replies))
  }

  lemma ServerOneMore(p: Protocol, compatible: bool, key: Bytes, hello: Bytes, first: Bytes, calls: seq<Call>,
                      rest: Bytes, msgs: seq<Msg>, seen: nat, l: Link<U32, Inbound>)
    requires calls != [] && Teaches(p, hello, key)
    requires var c := calls[|calls| - 1];
             && ServerRunsTo(p, compatible, key, hello, first, calls[..|calls| - 1], c.chunk + rest, msgs, seen, l)
             && (seen < |hello| ==> c.admitted && Accepts(JudgeOf(p, c.now, true), hello, key, first))
    ensures var n := |calls[|calls| - 1].chunk|;
            && (seen + n >= |hello| ==> seen + n - |hello| <= |l.inFlight|)
            && ServerRunsTo(p, compatible, key, hello, first, calls, rest, msgs, SeenAfter(hello, seen, n),
                            UpAfter(FormatOf(p, key), hello, seen, l, n))
  {
    hide ServerAt, ServerCall, Accepts, Framing, FormatOf, Teaches, Decode;
    var init, c := calls[..|calls| - 1], calls[|calls| - 1];
    var (e, replies) := ServerRun(p, compatible, init);
    ServerAdvances(p, compatible, c, key, hello, first, seen, l, c.chunk + rest, e, Output(replies));
    assert (c.chunk + rest)[|c.chunk|..] == rest;
    OutputOneMore(replies, ServerCall(p, compatible, e, c).1);
    hide Output;
  }

  /** A run of calls on the bytes of a greeting and frames keeps to the link. */
  lemma ServerRunAt(p: Protocol, compatible: bool, key: Bytes, hello: Bytes, first: Bytes, l0: Link<U32, Inbound>,
                    calls: seq<Call>, rest: Bytes)
    returns (seen: nat, l: Link<U32, Inbound>)
    requires hello != [] && Welcoming(p, hello, key, first, calls) && Teaches(p, hello, key)
    requires Linked(FormatOf(p, key), l0) && l0.got == [] && l0.receiver == FRESH && l0.buf == []
    requires Received(calls) + rest == hello + l0.inFlight
    ensures ServerRunsTo(p, compatible, key, hello, first, calls, rest, l0.sent, seen, l)
    decreases |calls|
  {
    hide ServerRunsTo, Linked, Framing, Accepts, Teaches, FormatOf, JudgeOf;
    if calls == [] {
      seen, l := 0, l0;
      ServerRunStarts(p, compatible, key, hello, first, l0, rest);
    } else {
      var init, c := calls[..|calls| - 1], calls[|calls| - 1];
      WelcomingBefore(p, hello, key, first, calls);
      assert (Received(init) + c.chunk) + rest == Received(init) + (c.chunk + rest);
      seen, l := ServerRunAt(p, compatible, key, hello, first, l0, init, c.chunk + rest);
      SeenOfRun(p, compatible, key, hello, first, init, c.chunk + rest, l0.sent, seen, l);
      ServerOneMore(p, compatible, key, hello, first, calls, rest, l0.sent, seen, l);
      seen, l := SeenAfter(hello, seen, |c.chunk|), UpAfter(FormatOf(p, key), hello, seen, l, |c.chunk|);
    }
  }

  lemma ServerRunStarts(p: Protocol, compatible: bool, key: Bytes, hello: Bytes, first: Bytes, l: Link<U32, Inbound>,
                        rest: Bytes)
    requires Linked(FormatOf(p, key), l) && l.got == [] && l.receiver == FRESH && l.buf == []
    requires hello != [] && Received([]) + rest == hello + l.inFlight
    ensures ServerRunsTo(p, compatible, key, hello, first, [], rest, l.sent, 0, l)
  {
    assert hello[..0] == [] && hello[0..] == hello && [] + rest == rest;
  }

  lemma {:induction false} SeenOfRun(p: Protocol, compatible: bool, key: Bytes, hello: Bytes, first: Bytes,
                                     calls: seq<Call>, rest: Bytes, msgs: seq<Msg>, seen: nat, l: Link<U32, Inbound>)
    requires ServerRunsTo(p, compatible, key, hello, first, calls, rest, msgs, seen, l)
    ensures seen == Min(|Received(calls)|, |hello|)
  {
  }

  /** The calls that come before the greeting is whole find the clock right and the connection id admitted. */
  predicate Timely(card: Card, size: nat, calls: seq<Call>) {
    forall i :: 0 <= i < |calls| && |Received(calls[..i])| < size ==>
        TimeAccepted(card.utc, calls[i].now) && calls[i].admitted
  }

  lemma TimelyIsWelcoming(client: Protocol, server: Protocol, card: Card, d: Drawn, first: Bytes, calls: seq<Call>)
    requires Fit(client, server, d.uid) && Drawable(client, d, first)
             && Timely(card, |HelloOf(client, card, d, first)|, calls)
    ensures Welcoming(server, HelloOf(client, card, d, first), ClientKey(client), first, calls)
  {
    hide Accepts, Fit, Drawable, JudgeOf, HelloOf;
    var hello := HelloOf(client, card, d, first);
    forall i | 0 <= i < |calls| && |Received(calls[..i])| < |hello|
      ensures calls[i].admitted && Accepts(JudgeOf(server, calls[i].now, true), hello, ClientKey(client), first)
    {
      HandshakeAgreement(client, server, card, d, first, calls[i].now);
    }
  }

  /** A link on which everything has been sent and nothing delivered. */
  lemma WholeRun(f: Format, msgs: seq<Msg>) returns (l: Link<U32, Inbound>)
    requires CanPackAll(Framing(f), 1, msgs)
    ensures Linked(f, l) && l.got == [] && l.receiver == FRESH && l.buf == []
    ensures l.sent == msgs && l.inFlight == Sent(Framing(f), 1, msgs) && l.sender == AfterAll(Framing(f), 1, msgs)
  {
    hide Linked, Framing, CanPackAll, Sent, AfterAll;
    LinkStarts(f);
    l := Apply(Framing(f), Start(1, FRESH), Send(msgs));
    LinkSends(f, Start(1, FRESH), msgs);
    assert [] + msgs == msgs && [] + Sent(Framing(f), 1, msgs) == Sent(Framing(f), 1, msgs);
  }

  /** The decoder has output the payloads of the first messages, and expects the number of the frame after those. */
  ghost predicate InLockStep(f: Format, msgs: seq<Msg>, id: U32, out: Bytes) {
    exists k: nat {:trigger msgs[..k]} ::
      k <= |msgs| && out == Flatten(Texts(msgs[..k])) && id == AfterAll(Framing(f), 1, msgs[..k])
  }

  lemma LinkedFacts(f: Format, l: Link<U32, Inbound>)
    requires Linked(f, l)
    ensures Flatten(l.got) <= Flatten(Texts(l.sent)) && (l.inFlight == [] ==> Flatten(l.got) == Flatten(Texts(l.sent)))
    ensures InLockStep(f, l.sent, l.receiver.id, Flatten(l.got))
  {
    hide Consistent;
    var k := LinkFacts(f, l);
    assert l.receiver.id == AfterAll(Framing(f), 1, l.sent[..k]);
  }

  /** Client to server, from the first byte: for every choice of writes, of drawn bytes and of chunks, no call raises,
      and the server outputs exactly the first payload and what the frames carry, in order, and all of it once
      everything has arrived. */
  lemma {:induction false} ClientToServer(client: Protocol, server: Protocol, compatible: bool, card: Card, d: Drawn,
                                          first: Bytes, msgs: seq<Msg>, calls: seq<Call>)
    requires Fit(client, server, d.uid) && Drawable(client, d, first)
             && Timely(card, |HelloOf(client, card, d, first)|, calls)
    requires var c := Framing(FormatOf(client, ClientKey(client)));
             CanPackAll(c, 1, msgs) && Received(calls) <= HelloOf(client, card, d, first) + Sent(c, 1, msgs)
    ensures var f := FormatOf(client, ClientKey(client));
            var hello := HelloOf(client, card, d, first);
            var (e, replies) := ServerRun(server, compatible, calls);
            var out := Output(replies);
            && AllData(replies)
            && (if |Received(calls)| < |hello| then out == []
                else
                  && first <= out && e.key == Some(ClientKey(client))
                  && out[|first|..] <= Flatten(Texts(msgs)) && InLockStep(f, msgs, e.id, out[|first|..]))
            && (Received(calls) == hello + Sent(Framing(f), 1, msgs) ==> out == first + Flatten(Texts(msgs)))
  {
    hide Welcoming, Teaches, JudgeOf, FormatOf, Framing, Drawable, HelloOf, Timely;
    SameFormat(client, server, d.uid);
    HelloTeaches(client, server, card, d, first);
    TimelyIsWelcoming(client, server, card, d, first, calls);
    hide Fit;
    ServerDelivers(server, compatible, ClientKey(client), HelloOf(client, card, d, first), first, msgs, calls);
  }

  lemma SameFormat(client: Protocol, server: Protocol, uid: Uid)
    requires Fit(client, server, uid)
    ensures FormatOf(server, ClientKey(client)) == FormatOf(client, ClientKey(client))
  {
  }

  lemma {:induction false} ServerDelivers(p: Protocol, compatible: bool, key: Bytes, hello: Bytes, first: Bytes,
                                          msgs: seq<Msg>, calls: seq<Call>)
    requires hello != [] && Welcoming(p, hello, key, first, calls) && Teaches(p, hello, key)
    requires var c := Framing(FormatOf(p, key)); CanPackAll(c, 1, msgs) && Received(calls) <= hello + Sent(c, 1, msgs)
    ensures var f := FormatOf(p, key);
            var (e, replies) := ServerRun(p, compatible, calls);
            var out := Output(replies);
            && AllData(replies)
            && (if |Received(calls)| < |hello| then out == []
                else
                  && first <= out && e.key == Some(key)
                  && out[|first|..] <= Flatten(Texts(msgs)) && InLockStep(f, msgs, e.id, out[|first|..]))
            && (Received(calls) == hello + Sent(Framing(f), 1, msgs) ==> out == first + Flatten(Texts(msgs)))
  {
    hide Welcoming, Teaches, CanPackAll, Sent, Framing, FormatOf, Flatten, Texts, ServerRun, Output, Linked, InLockStep;
    var f := FormatOf(p, key);
    var l0 := WholeRun(f, msgs);
    var all := hello + Sent(Framing(f), 1, msgs);
    var rest := all[|Received(calls)|..];
    var seen, l := ServerRunAt(p, compatible, key, hello, first, l0, calls, rest);
    if seen == |hello| {
      LinkedFacts(f, l);
      assert hello[seen..] + l.inFlight == l.inFlight;
      var out := Output(ServerRun(p, compatible, calls).1);
      assert out[|first|..] == Flatten(l.got);
    }
  }

  ghost predicate ClientRunsTo(p: Protocol, key: Bytes, e0: End, chunks: seq<Bytes>, rest: Bytes, msgs: seq<Msg>,
                               l: Link<U32, Inbound>) {
    var (e, replies) := ClientRun(p, e0, chunks);
    AllData(replies) && l.sent == msgs && l.inFlight == rest && ClientAt(p, key, l, e, Output(replies))
  }

  lemma ClientOneMore(p: Protocol, key: Bytes, e0: End, chunks: seq<Bytes>, rest: Bytes, msgs: seq<Msg>,
                      l: Link<U32, Inbound>)
    requires chunks != []
    requires ClientRunsTo(p, key, e0, chunks[..|chunks| - 1], chunks[|chunks| - 1] + rest, msgs, l)
    ensures |chunks[|chunks| - 1]| <= |l.inFlight|
    ensures ClientRunsTo(p, key, e0, chunks, rest, msgs,
                         Apply(Framing(FormatOf(p, key)), l, Deliver(|chunks[|chunks| - 1]|)))
  {
    hide ClientAt, ClientCall, Framing, Decode, FormatOf;
    var init, last := chunks[..|chunks| - 1], chunks[|chunks| - 1];
    var (e, replies) := ClientRun(p, e0, init);
    assert (last + rest)[..|last|] == last && (last + rest)[|last|..] == rest;
    ClientAdvances(p, key, l, e, Output(replies), |last|);
    OutputOneMore(replies, ClientCall(p, e, last).1);
    LinkOf(p, key, l, e, Output(replies));
    hide Output;
  }

  lemma LinkOf(p: Protocol, key: Bytes, l: Link<U32, Inbound>, e: End, out: Bytes)
    requires ClientAt(p, key, l, e, out)
    ensures l.verdict == More
  {
  }

  /** A client that has a key and has received nothing yet. */
  function Waiting(key: Bytes): End {
    End(false, false, Some(key), 1, [], 0)
  }

  lemma ClientRunAt(p: Protocol, key: Bytes, msgs: seq<Msg>, chunks: seq<Bytes>, rest: Bytes)
    returns (l: Link<U32, Inbound>)
    requires CanPackAll(Framing(FormatOf(p, key)), 1, msgs)
             && Flatten(chunks) + rest == Sent(Framing(FormatOf(p, key)), 1, msgs)
    ensures ClientRunsTo(p, key, Waiting(key), chunks, rest, msgs, l)
    decreases |chunks|
  {
    hide Framing, CanPackAll, Sent, Linked, FormatOf;
    if chunks == [] {
      l := WholeRun(FormatOf(p, key), msgs);
      assert [] + rest == rest;
    } else {
      hide ClientRunsTo, ClientAt;
      var init, last := chunks[..|chunks| - 1], chunks[|chunks| - 1];
      FlattenLast(chunks);
      assert (Flatten(init) + last) + rest == Flatten(init) + (last + rest);
      l := ClientRunAt(p, key, msgs, init, last + rest);
      ClientOneMore(p, key, Waiting(key), chunks, rest, msgs, l);
      l := Apply(Framing(FormatOf(p, key)), l, Deliver(|last|));
    }
  }

  /** Server to client: for every run of the server's frames, every padding and every chunking no call raises, and the
      client outputs exactly what the frames carry, across wraps of the frame number. */
  lemma {:induction false} ServerToClient(p: Protocol, key: Bytes, msgs: seq<Msg>, chunks: seq<Bytes>)
    requires var c := Framing(FormatOf(p, key)); CanPackAll(c, 1, msgs) && Flatten(chunks) <= Sent(c, 1, msgs)
    ensures var f := FormatOf(p, key);
            var (e, replies) := ClientRun(p, Waiting(key), chunks);
            && AllData(replies) && Output(replies) <= Flatten(Texts(msgs)) && InLockStep(f, msgs, e.id, Output(replies))
            && (Flatten(chunks) == Sent(Framing(f), 1, msgs) ==> Output(replies) == Flatten(Texts(msgs)))
  {
    hide Framing, CanPackAll, Sent, Linked, ClientRun, Output, Flatten, Texts, FormatOf, InLockStep;
    var f := FormatOf(p, key);
    var rest := Sent(Framing(f), 1, msgs)[|Flatten(chunks)|..];
    var l := ClientRunAt(p, key, msgs, chunks, rest);
    LinkedFacts(f, l);
  }
}
