/**
 * One end of an auth_chain connection: the object whose methods pack what is sent and
 * decode what arrives. The same class serves as client and as server. Packing is
 * specified by the functions of ChainCodec and ChainHandshake, decoding by those of ChainEnds.
 */
module AuthChain {
  import opened ByteStrings
  import opened ChainCodec
  import opened ChainEnds
  import opened ChainHandshake
  import opened FrameLoop
  import opened Options
  import opened StreamBasics
  import opened UserTables
  import opened Xorshift
  import KeystreamCipher
  import ReplayWindow

  lemma PackedFrame(p: Primitives, s: Session, e: Side, m: Msg, frame: Bytes, e': Side)
    requires Packable(p, e, m) && frame == Frame(p, s, e, m.plain, m.rnd) && e' == AfterPack(p, s, e, m.plain, m.rnd)
    ensures PackedSoFar(Chain(p, s), e, [m], frame, e')
  {
    RunOfOne(Chain(p, s), e, m);
  }

  /** Where the client's sending direction starts after its greeting. */
  function FirstSide(cfg: Config, uid: U32, auth: Card, head: Bytes, rng: Rng): Side
    requires |head| == 4
  {
    Side(Greet(cfg.p, cfg.iv + cfg.key, UserKey(cfg), cfg.salt, uid, auth, head).clientHash, 1, 0, rng)
  }

  /** What a client's first write has sent: the greeting, and after it the frames of the messages. */
  ghost predicate FirstWritten(cfg: Config, uid: U32, auth: Card, head: Bytes, rng: Rng, msgs: seq<Msg>, out: Bytes,
                               session: Option<Session>, serverHash: Digest, now: Side) {
    && |head| == 4 && |out| >= HELLO_SIZE && session.Some?
    && GreetingSent(cfg, uid, auth, head, session, serverHash, out[..HELLO_SIZE])
    && PackedSoFar(Chain(cfg.p, session.value), FirstSide(cfg, uid, auth, head, rng), msgs, out[HELLO_SIZE..], now)
  }

  /** The 36 bytes a client has sent, and what it keeps from them. */
  ghost predicate GreetingSent(cfg: Config, uid: U32, auth: Card, head: Bytes, session: Option<Session>,
                               serverHash: Digest, out: Bytes)
    requires |head| == 4
  {
    var g := Greet(cfg.p, cfg.iv + cfg.key, UserKey(cfg), cfg.salt, uid, auth, head);
    && session == Some(g.session) && serverHash == g.serverHash
    && out == Hello(cfg.p, cfg.iv + cfg.key, UserKey(cfg), cfg.salt, uid, auth, head)
    && (cfg.param.Some? && cfg.param.value.uid.Some? ==> uid == cfg.param.value.uid.value)
  }

  /** The unit that follows from a server's MSS and the overhead its client asked for. */
  function UnitFor(tcpMss: nat, clientOverhead: nat): int {
    Min(tcpMss, 1500) - clientOverhead
  }

  /** A unit and the overhead fill a segment, of at most 1500 bytes. */
  lemma UnitFillsSegment(tcpMss: nat, clientOverhead: nat)
    ensures UnitFor(tcpMss, clientOverhead) + clientOverhead == if tcpMss > 1500 then 1500 else tcpMss
  {
  }

  class AuthChain {
    const cfg: Config
    var recvBuf: Bytes
    var unitLen: int
    var rawTrans: bool
    var hasSentHeader: bool
    var hasRecvHeader: bool
    var packId: U32
    var recvId: U32
    var session: Option<Session>
    var clientOverhead: nat
    var lastClientHash: Digest
    var lastServerHash: Digest
    var randomClient: Rng
    var randomServer: Rng
    var encrypted: nat
    var decrypted: nat
    var tcpMss: nat
    var userId: Option<U32>
    var clientId: U32

    constructor (cfg: Config, tcpMss: nat)
      ensures this.cfg == cfg && recvBuf == [] && unitLen == UNIT_LEN && !rawTrans && !hasSentHeader && !hasRecvHeader
      ensures this.tcpMss == tcpMss && ClientOut() == FRESH_SIDE && ServerOut() == FRESH_SIDE
      ensures ServerView() == FRESH_SERVER && ClientView() == ClientEnd(false, None, FRESH_SIDE, [], tcpMss)
      ensures Who() == NOBODY
    {
      this.cfg := cfg;
      recvBuf, unitLen := [], UNIT_LEN;
      rawTrans, hasSentHeader, hasRecvHeader := false, false, false;
      packId, recvId := 1, 1;
      session := None;
      clientOverhead := 4;
      lastClientHash, lastServerHash := NO_DIGEST, NO_DIGEST;
      randomClient, randomServer := UNSEEDED, UNSEEDED;
      encrypted, decrypted := 0, 0;
      this.tcpMss := tcpMss;
      userId, clientId := None, 0;
    }

    /** The four directions an end can take part in. */
    function ClientOut(): Side reads this { Side(lastClientHash, packId, encrypted, randomClient) }
    function ClientIn(): Side reads this { Side(lastServerHash, recvId, decrypted, randomServer) }
    function ServerOut(): Side reads this { Side(lastServerHash, packId, encrypted, randomServer) }
    function ServerIn(): Side reads this { Side(lastClientHash, recvId, decrypted, randomClient) }

    /** The fields that decoding works on, as a server and as a client. */
    function ServerView(): ServerEnd reads this {
      ServerEnd(rawTrans, hasRecvHeader, session, ServerIn(), ServerOut(), clientOverhead, recvBuf)
    }

    function ClientView(): ClientEnd reads this {
      ClientEnd(rawTrans, session, ClientIn(), recvBuf, tcpMss)
    }

    function Who(): Caller<U32> reads this {
      Caller(userId, clientId)
    }

    // ----- packing -----

    /** The padding with the payload spliced in; draws from the generator given. */
    method RndData(text: Bytes, hash: Digest, random: Rng) returns (body: Bytes, random': Rng, ghost rnd: Bytes)
      requires |text| < 0x1_0000
      ensures |rnd| == cfg.p.padLen(|text|, hash, random).0
      ensures (body, random') == Body(cfg.p, text, rnd, cfg.p.padLen(|text|, hash, random).1)
    {
      var (randLen, seeded) := cfg.p.padLen(|text|, hash, random);
      var data := URandom(randLen);
      rnd := data;
      if |text| == 0 {
        return data, seeded, rnd;
      }
      if randLen > 0 {
        var (start, random'') := cfg.p.startPos(randLen, seeded);
        var pos := Min(start, randLen);
        return data[..pos] + text + data[pos..], random'', rnd;
      }
      return text, seeded, rnd;
    }

    method PackClientData(buf: Bytes) returns (frame: Bytes, ghost m: Msg)
      requires session.Some? && |buf| <= MAX_PAYLOAD
      modifies this`lastClientHash, this`packId, this`encrypted, this`randomClient
      ensures m.plain == buf
      ensures PackedSoFar(Chain(cfg.p, session.value), old(ClientOut()), [m], frame, ClientOut())
    {
      var s := session.value;
      var text := KeystreamCipher.ApplyKeystream(cfg.p.rc4(s.cipherKey), encrypted, buf);
      encrypted := encrypted + |buf|;
      var body, random', rnd := RndData(text, lastClientHash, randomClient);
      randomClient := random';
      var data := Le16(Xor16(|text|, Mask(lastClientHash))) + body;
      lastClientHash := cfg.p.mac(MacKey(s, packId), data);
      frame := data + lastClientHash[..2];
      packId := Succ32(packId);
      m := Msg(buf, rnd);
      PackedFrame(cfg.p, s, old(ClientOut()), m, frame, ClientOut());
    }

    method PackServerData(buf: Bytes) returns (frame: Bytes, ghost m: Msg)
      requires session.Some? && |buf| <= MAX_PAYLOAD
      modifies this`lastServerHash, this`packId, this`encrypted, this`randomServer
      ensures m.plain == buf
      ensures PackedSoFar(Chain(cfg.p, session.value), old(ServerOut()), [m], frame, ServerOut())
    {
      var s := session.value;
      var text := KeystreamCipher.ApplyKeystream(cfg.p.rc4(s.cipherKey), encrypted, buf);
      encrypted := encrypted + |buf|;
      var body, random', rnd := RndData(text, lastServerHash, randomServer);
      randomServer := random';
      var data := Le16(Xor16(|text|, Mask(lastServerHash))) + body;
      lastServerHash := cfg.p.mac(MacKey(s, packId), data);
      frame := data + lastServerHash[..2];
      packId := Succ32(packId);
      m := Msg(buf, rnd);
      PackedFrame(cfg.p, s, old(ServerOut()), m, frame, ServerOut());
    }

    /** The greeting, which fixes the session's keys and digests. */
    method SendGreeting(auth: Card) returns (out: Bytes, ghost uid: U32, ghost head: Bytes)
      modifies this`session, this`lastClientHash, this`lastServerHash
      ensures |head| == 4 && |out| == HELLO_SIZE && session.Some?
      ensures GreetingSent(cfg, uid, auth, head, session, lastServerHash, out)
      ensures lastClientHash == FirstSide(cfg, uid, auth, head, randomClient).hash
    {
      var macKey := cfg.iv + cfg.key;
      var checkHead := URandom(4);
      head := checkHead;
      lastClientHash := cfg.p.mac(macKey, checkHead);
      checkHead := checkHead + lastClientHash[..8];
      var id;
      if cfg.param.Some? && cfg.param.value.uid.Some? {
        id := cfg.param.value.uid.value;
      } else {
        var bytes := URandom(4);
        id := UnLe32(bytes);
      }
      uid := id;
      var userKey := UserKey(cfg);
      var data := MaskedUid(id, lastClientHash) + cfg.p.aesEncrypt(BlockPassword(cfg.p, userKey, cfg.salt),
                                                                   CardBlock(auth));
      lastServerHash := cfg.p.mac(userKey, data);
      out := checkHead + data + lastServerHash[..4];
      session := Some(NewSession(cfg.p, userKey, lastClientHash));
    }

    /** The greeting and the first frame. */
    method PackAuthData(auth: Card, buf: Bytes) returns (out: Bytes, ghost uid: U32, ghost head: Bytes, ghost m: Msg)
      requires |buf| <= MAX_PAYLOAD && session == None && packId == 1 && encrypted == 0 && auth.overhead == cfg.overhead
      modifies this`session, this`lastClientHash, this`lastServerHash, this`packId, this`encrypted, this`randomClient
      ensures m.plain == buf && |head| == 4 && |out| >= HELLO_SIZE && session.Some?
      ensures GreetingSent(cfg, uid, auth, head, session, lastServerHash, out[..HELLO_SIZE])
      ensures PackedSoFar(Chain(cfg.p, session.value), FirstSide(cfg, uid, auth, head, old(randomClient)), [m],
                          out[HELLO_SIZE..], ClientOut())
    {
      var data, frame;
      data, uid, head := SendGreeting(auth);
      frame, m := PackClientData(buf);
      out := data + frame;
      assert out[..HELLO_SIZE] == data && out[HELLO_SIZE..] == frame;
    }

    /** Cutting and packing what a client writes, after the greeting if it is the first write. */
    method PackClientUnits(buffer: Bytes) returns (out: Bytes, ghost msgs: seq<Msg>)
      requires session.Some? && unitLen == UNIT_LEN
      modifies this`lastClientHash, this`packId, this`encrypted, this`randomClient
      ensures Texts(msgs) == Split(UNIT_LEN, buffer)
      ensures PackedSoFar(Chain(cfg.p, session.value), old(ClientOut()), msgs, out, ClientOut())
    {
      var buf := buffer;
      out, msgs := [], [];
      ghost var start := ClientOut();
      ghost var c := Chain(cfg.p, session.value);
      var frame; ghost var m;
      while |buf| > unitLen
        invariant CutSoFar(UNIT_LEN, msgs, buf, buffer)
        invariant PackedSoFar(c, start, msgs, out, ClientOut())
        decreases |buf|
      {
        ghost var now := ClientOut();
        frame, m := PackClientData(buf[..unitLen]);
        PackedMore(c, start, msgs, out, now, [m], frame, ClientOut());
        CutOneMore(UNIT_LEN, msgs, buf, buffer, m);
        out, msgs := out + frame, msgs + [m];
        buf := buf[unitLen..];
      }
      ghost var now := ClientOut();
      frame, m := PackClientData(buf);
      PackedMore(c, start, msgs, out, now, [m], frame, ClientOut());
      CutLast(UNIT_LEN, msgs, buf, buffer, m);
      out, msgs := out + frame, msgs + [m];
    }

    /** A client's first write: the greeting, an address-sized first frame, then the rest of the buffer. */
    method FirstWrite(buffer: Bytes, auth: Card, jitter: nat)
      returns (out: Bytes, ghost uid: U32, ghost head: Bytes, ghost msgs: seq<Msg>)
      requires unitLen == UNIT_LEN && jitter <= 31
      requires session == None && packId == 1 && encrypted == 0 && auth.overhead == cfg.overhead
      modifies this`session, this`lastClientHash, this`lastServerHash, this`packId, this`encrypted, this`randomClient
      ensures session.Some? && Flatten(Texts(msgs)) == buffer
      ensures FirstWritten(cfg, uid, auth, head, old(randomClient), msgs, out, session, lastServerHash, ClientOut())
    {
      hide GreetingSent, PackedSoFar, Chain, Flatten, Texts, Split, FirstSide;
      var dataLen := Min(|buffer|, jitter + HeadSize(buffer, 30));
      var first, rest; ghost var m, more;
      first, uid, head, m := PackAuthData(auth, buffer[..dataLen]);
      ghost var now := ClientOut();
      rest, more := PackClientUnits(buffer[dataLen..]);
      out, msgs := first + rest, [m] + more;
      TextsJoin(UNIT_LEN, m, more, buffer, dataLen);
      DropPrefix(first, rest, HELLO_SIZE);
      PackedMore(Chain(cfg.p, session.value), FirstSide(cfg, uid, auth, head, old(randomClient)), [m],
                 first[HELLO_SIZE..],
                 now, more, rest, ClientOut());
    }

    /** What the client application writes, packed. */
    method ClientPreEncrypt(buffer: Bytes, auth: Card, jitter: nat)
      returns (out: Bytes, ghost uid: U32, ghost head: Bytes, ghost msgs: seq<Msg>)
      requires unitLen == UNIT_LEN && jitter <= 31 && auth.overhead == cfg.overhead
      requires if hasSentHeader then session.Some? else session == None && packId == 1 && encrypted == 0
      modifies this`hasSentHeader, this`session, this`lastClientHash, this`lastServerHash, this`packId, this`encrypted,
               this`randomClient
      ensures hasSentHeader && session.Some? && Flatten(Texts(msgs)) == buffer
      ensures if old(hasSentHeader) then
                && session == old(session) && lastServerHash == old(lastServerHash)
                && PackedSoFar(Chain(cfg.p, session.value), old(ClientOut()), msgs, out, ClientOut())
              else
                FirstWritten(cfg, uid, auth, head, old(randomClient), msgs, out, session, lastServerHash, ClientOut())
    {
      hide PackedSoFar, FirstWritten, Chain, Flatten, Texts, Split;
      uid, head := 0, [];
      if !hasSentHeader {
        out, uid, head, msgs := FirstWrite(buffer, auth, jitter);
        hasSentHeader := true;
      } else {
        out, msgs := PackClientUnits(buffer);
        SplitFlatten(UNIT_LEN, buffer);
      }
    }

    /** Cutting and packing what a server writes. */
    method PackServerUnits(buffer: Bytes) returns (out: Bytes, ghost msgs: seq<Msg>)
      requires session.Some? && 0 < unitLen <= MAX_PAYLOAD
      modifies this`lastServerHash, this`packId, this`encrypted, this`randomServer
      ensures Texts(msgs) == Split(unitLen, buffer)
      ensures PackedSoFar(Chain(cfg.p, session.value), old(ServerOut()), msgs, out, ServerOut())
    {
      var buf := buffer;
      out, msgs := [], [];
      ghost var start := ServerOut();
      ghost var c := Chain(cfg.p, session.value);
      var frame; ghost var m;
      while |buf| > unitLen
        invariant CutSoFar(unitLen, msgs, buf, buffer)
        invariant PackedSoFar(c, start, msgs, out, ServerOut())
        decreases |buf|
      {
        ghost var now := ServerOut();
        frame, m := PackServerData(buf[..unitLen]);
        PackedMore(c, start, msgs, out, now, [m], frame, ServerOut());
        CutOneMore(unitLen, msgs, buf, buffer, m);
        out, msgs := out + frame, msgs + [m];
        buf := buf[unitLen..];
      }
      ghost var now := ServerOut();
      frame, m := PackServerData(buf);
      PackedMore(c, start, msgs, out, now, [m], frame, ServerOut());
      CutLast(unitLen, msgs, buf, buffer, m);
      out, msgs := out + frame, msgs + [m];
    }

    /** What the server writes, packed; its first write is preceded by the MSS, which also sets the unit. A server that
        has not taken a greeting yet has no keys: it raises, but for those two fields as after a write. */
    method ServerPreEncrypt(buffer: Bytes) returns (out: Option<Bytes>, ghost msgs: seq<Msg>)
      requires !rawTrans && session.Some? ==> 1 <= (if packId == 1 then UnitFor(tcpMss, clientOverhead)
                                                    else unitLen) <= MAX_PAYLOAD
      modifies this`tcpMss, this`unitLen, this`lastServerHash, this`packId, this`encrypted, this`randomServer
      ensures out == None <==> !rawTrans && session == None
      ensures rawTrans ==> out == Some(buffer)
      ensures rawTrans || session == None ==> ServerOut() == old(ServerOut())
      ensures if !rawTrans && old(packId) == 1
              then tcpMss == Min(old(tcpMss), 1500) && unitLen == UnitFor(old(tcpMss), clientOverhead)
              else tcpMss == old(tcpMss) && unitLen == old(unitLen)
      ensures !rawTrans && session.Some? ==>
                && 0 < unitLen <= MAX_PAYLOAD && Texts(msgs)
                   == Split(unitLen, WithMss(old(packId), old(tcpMss), buffer))
                && PackedSoFar(Chain(cfg.p, session.value), old(ServerOut()), msgs, out.value, ServerOut())
    {
      msgs := [];
      if rawTrans {
        return Some(buffer), [];
      }
      var buf := buffer;
      if packId == 1 {
        tcpMss := if tcpMss < 1500 then tcpMss else 1500;
        buf := Le16(tcpMss) + buf;
        unitLen := tcpMss - clientOverhead;
      }
      hide Split, Texts, PackedSoFar, Chain;
      if session == None {
        return None, [];
      }
      var packed;
      packed, msgs := PackServerUnits(buf);
      out := Some(packed);
    }

    // ----- decoding -----

    /** The client's receive loop, for a given turn. */
    method ClientReceive(step: Stepper<Side>) returns (reply: Reply)
      requires !rawTrans && Progress(step)
      modifies this`recvBuf, this`rawTrans, this`lastServerHash, this`recvId, this`decrypted, this`randomServer,
               this`tcpMss
      ensures (ClientView(), reply) == ClientDecodes(step, old(ClientView()), old(recvBuf))
    {
      var out: Bytes := [];
      ghost var stop := ClientLoop(step, ClientIn(), recvBuf, out, tcpMss);
      while true
        invariant !rawTrans
        invariant ClientLoop(step, ClientIn(), recvBuf, out, tcpMss) == stop
        decreases |recvBuf|
      {
        var turn := step(ClientIn(), recvBuf);
        if turn.Stuck? {
          SetClientIn(turn.state);
          if turn.verdict == More {
            break;
          }
          rawTrans := true;
          recvBuf := [];
          return Raised;
        }
        out := out + turn.plain;
        if recvId == 1 {
          if |out| < 2 {
            SetClientIn(turn.state.(id := recvId));
            return Raised;
          }
          tcpMss := UnLe16(out[..2]);
          out := out[2..];
        }
        SetClientIn(turn.state);
        recvBuf := recvBuf[turn.size..];
      }
      reply := Data(out, false);
    }

    method SetClientIn(d: Side)
      modifies this`lastServerHash, this`recvId, this`decrypted, this`randomServer
      ensures ClientIn() == d
    {
      lastServerHash, recvId, decrypted, randomServer := d.hash, d.id, d.offset, d.rng;
    }

    /** Bytes from the server, decoded. */
    method ClientPostDecrypt(buf: Bytes) returns (reply: Reply)
      modifies this`recvBuf, this`rawTrans, this`lastServerHash, this`recvId, this`decrypted, this`randomServer,
               this`tcpMss
      ensures (ClientView(), reply) == ClientCall(cfg.p, old(ClientView()), buf)
    {
      hide ClientLoop;
      if rawTrans {
        return Data(buf, false);
      }
      recvBuf := recvBuf + buf;
      if session == None {
        return if |recvBuf| > 4 then Raised else Data([], false);
      }
      TurnsProgress(cfg.p, session.value);
      reply := ClientReceive(Turns(cfg.p, session.value));
    }

    /** The server's receive loop, for a given turn. */
    method ServerReceive(step: Stepper<Side>, greeted: bool) returns (reply: Reply)
      requires !rawTrans && Progress(step)
      modifies this`recvBuf, this`rawTrans, this`lastClientHash, this`recvId, this`decrypted, this`randomClient
      ensures (ServerView(), reply) == ServerDecodes(step, old(ServerView()), old(recvBuf), greeted)
    {
      var out: Bytes, sendback: bool := [], greeted;
      ghost var whole := Decode(step, ServerIn(), recvBuf);
      ghost var done: seq<Bytes> := [];
      assert ReceivedSoFar(step, whole, done, ServerIn(), recvBuf, out, sendback, greeted) by {
        assert whole.frames == done + whole.frames;
      }
      hide Decode, Flatten, ReceivedSoFar, ServerDecodes, Settled, Restartable;
      ghost var e, received := ServerView(), recvBuf;
      while true
        invariant !rawTrans
        invariant ReceivedSoFar(step, whole, done, ServerIn(), recvBuf, out, sendback, greeted)
        decreases |recvBuf|
      {
        var turn := step(ServerIn(), recvBuf);
        if turn.Stuck? {
          ReceivedAll(step, e, received, done, ServerIn(), recvBuf, out, sendback, greeted);
          SetServerIn(turn.state);
          if turn.verdict == More {
            break;
          }
          rawTrans := true;
          recvBuf := [];
          return if recvId == 0 then Rejected else Raised;
        }
        assert 0 < turn.size <= |recvBuf|;
        ReceivedOneMore(step, whole, done, ServerIn(), recvBuf, out, sendback, greeted);
        done := done + [turn.plain];
        out := out + turn.plain;
        if turn.plain == [] {
          sendback := true;
        }
        SetServerIn(turn.state);
        recvBuf := recvBuf[turn.size..];
      }
      reply := Data(out, sendback);
    }

    method SetServerIn(d: Side)
      modifies this`lastClientHash, this`recvId, this`decrypted, this`randomClient
      ensures ServerIn() == d && ServerView() == old(ServerView()).(incoming := d)
    {
      lastClientHash, recvId, decrypted, randomClient := d.hash, d.id, d.offset, d.rng;
    }

    /** The server takes the keys and digests from a greeting and starts both directions from them. */
    method TakeGreeting(g: Greeting)
      requires |recvBuf| >= HELLO_SIZE
      modifies this`recvBuf, this`lastClientHash, this`lastServerHash, this`clientOverhead, this`session,
               this`encrypted, this`decrypted, this`hasRecvHeader
      ensures ServerView() == Welcomed(old(ServerView()), g).(buf := old(recvBuf)[HELLO_SIZE..])
    {
      hide FRESH_SIDE, NO_DIGEST;
      lastClientHash, lastServerHash, clientOverhead := g.clientHash, g.serverHash, g.card.overhead;
      session, encrypted, decrypted := Some(g.session), 0, 0;
      recvBuf := recvBuf[HELLO_SIZE..];
      hasRecvHeader := true;
    }

    /** What a server does with all the bytes received so far, given its judgement of the greeting in them. */
    method AnswerGreeting(hello: HelloResult) returns (reply: Reply)
      requires !rawTrans && !hasRecvHeader && (hello.Greeted? ==> |recvBuf| >= HELLO_SIZE)
      modifies this`recvBuf, this`rawTrans, this`lastClientHash, this`lastServerHash, this`clientOverhead, this`session,
               this`encrypted, this`decrypted, this`hasRecvHeader, this`recvId, this`randomClient
      ensures var e, received := old(ServerView()), old(recvBuf);
              (ServerView(), reply) ==
              match hello
              case Wait => (e, Data([], false))
              case NoMatch => (e.(raw := true), Rejected)
              case Greeted(g, _) => ServerDecodes(Turns(cfg.p, g.session), Welcomed(e, g), received[HELLO_SIZE..], true)
    {
      hide Turns, Decode, Progress, Greet;
      match hello {
        case Wait =>
          reply := Data([], false);
        case NoMatch =>
          rawTrans := true;
          reply := Rejected;
        case Greeted(g, _) =>
          TakeGreeting(g);
          TurnsProgress(cfg.p, g.session);
          reply := ServerReceive(Turns(cfg.p, g.session), true);
      }
    }

    /** Bytes from the client, decoded; admitted is the answer of the table of clients to a greeting that is good in all
        else. */
    method Decipher(buf: Bytes, now: U32, admitted: bool) returns (reply: Reply)
      requires hasRecvHeader ==> session.Some?
      modifies this`recvBuf, this`rawTrans, this`lastClientHash, this`lastServerHash, this`clientOverhead, this`session,
               this`encrypted, this`decrypted, this`hasRecvHeader, this`recvId, this`randomClient
      ensures (ServerView(), reply) == ServerCall(cfg, old(ServerView()), Call(buf, now, admitted))
    {
      if rawTrans {
        return Data(buf, false);
      }
      recvBuf := recvBuf + buf;
      if hasRecvHeader {
        TurnsProgress(cfg.p, session.value);
        reply := ServerReceive(Turns(cfg.p, session.value), false);
      } else {
        reply := AnswerGreeting(JudgeHello(cfg, recvBuf, now, admitted));
      }
    }

    /** The tables of clients are asked about a greeting that is good in all else. */
    method AskTables(received: Bytes, now: U32, data: UserData<Option<U32>>, clock: real) returns (admitted: bool)
      requires data.Valid() && data.rule == ReplayWindow.CountedIdle
      modifies this`userId, this`clientId, data, data.tables.Values
      ensures data.Valid() && fresh(data.tables.Values - old(data.tables.Values))
      ensures var named := old(Who()).(user := UserNamed(cfg, received, old(userId)));
              Answer(admitted, Who(), data.View()) ==
              Asked(ReplayWindow.CountedIdle, data.maxClient, old(data.View()), named, IdsOf(cfg, received, now), clock)
    {
      hide UserNamed, IdsOf, UserInserted, data.Valid, data.View;
      userId := UserNamed(cfg, received, userId);
      var ids := IdsOf(cfg, received, now);
      admitted := true;
      if ids.Some? {
        admitted := data.Insert(userId, ids.value.client, ids.value.connection, clock);
        if admitted {
          clientId := ids.value.client;
        }
      }
    }

    /** The table hears of the data that has come. */
    method TellTables(reply: Reply, data: UserData<Option<U32>>, clock: real)
      requires data.Valid()
      modifies data, data.tables.Values
      ensures data.Valid() && fresh(data.tables.Values - old(data.tables.Values))
      ensures data.View() == Refreshed(old(data.View()), Who(), reply, clock)
    {
      hide UserUpdated;
      if Delivered(reply) != [] {
        data.Update(userId, clientId, clock);
      }
    }

    /** Bytes from the client, decoded. now and clock are the server's clock, data its tables of clients, which its
        connections share. */
    method ServerPostDecrypt(buf: Bytes, data: UserData<Option<U32>>, now: U32, clock: real) returns (reply: Reply)
      requires (hasRecvHeader ==> session.Some?) && data.Valid() && data.rule == ReplayWindow.CountedIdle
      modifies this`recvBuf, this`rawTrans, this`lastClientHash, this`lastServerHash, this`clientOverhead, this`session,
               this`encrypted, this`decrypted, this`hasRecvHeader, this`recvId, this`randomClient
      modifies this`userId, this`clientId, data, data.tables.Values
      ensures data.Valid() && fresh(data.tables.Values - old(data.tables.Values))
      ensures Outcome(ServerView(), Who(), data.View(), reply) ==
              GuardedCall(cfg, data.maxClient, old(ServerView()), old(Who()), old(data.View()), buf, now, clock)
    {
      hide ServerCall, Asked, Refreshed, IdsOf, UserNamed, FRESH_SIDE, NO_DIGEST, data.Valid, data.View;
      if rawTrans {
        return Data(buf, false);
      }
      var admitted := true;
      if !hasRecvHeader {
        admitted := AskTables(recvBuf + buf, now, data, clock);
      }
      reply := Decipher(buf, now, admitted);
      if hasRecvHeader {
        TellTables(reply, data, clock);
      }
    }

    /** The connection ends. */
    method Dispose(data: UserData<Option<U32>>)
      requires data.Valid()
      modifies data.tables.Values
      ensures data.Valid() && data.View() == UserRemoved(old(data.View()), userId, clientId)
    {
      data.Remove(userId, clientId);
    }
  }
}
