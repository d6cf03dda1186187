/**
 * One end of an auth_sha1_v4 or auth_aes128 connection: the object whose methods pack what is sent and decode
 * what arrives. The two protocols run the same loops over different formats, greetings and paddings.
 */
module AuthStream {
  import opened AuthEnds
  import opened AuthFrames
  import opened AuthGreeting
  import opened ByteStrings
  import opened FrameLink
  import opened FrameLoop
  import opened Options
  import opened ReplayWindow
  import opened StreamBasics
  import opened UserTables

  const UNIT_LEN := 8100

  /** The largest segment size for which every frame fits the decoder's limit. */
  const MAX_MSS := 4096

  /** A random number below a positive bound. */
  method Below(bound: nat) returns (n: nat)
    requires bound > 0
    ensures n < bound
  {
    assert 0 < bound;
    n :| n < bound;
  }

  // ----- padding -----

  /** The padding of auth_sha1_v4 for a payload of bufSize bytes. */
  method Sha1Padding(bufSize: nat) returns (pad: Bytes)
    ensures TellsSize(true, pad)
    ensures |pad| <= if bufSize > 1200 then 1 else if bufSize > 400 then 258 else 514
  {
    if bufSize > 1200 {
      pad := [1];
      return;
    }
    var n := Below(if bufSize > 400 then 256 else 512);
    var rnd := URandom(n);
    pad := Padding(true, if n < 128 then n + 1 else n + 3, rnd);
  }

  /** int(v * max) for a float v of [0, 1). */
  method TrapezoidInt(max: nat) returns (n: nat)
    requires max > 0
    ensures n < max
  {
    var v: real :| 0.0 <= v < 1.0;
    TrapezoidBound(v, max);
    n := (v * max as real).Floor;
  }

  lemma TrapezoidBound(v: real, max: nat)
    requires 0.0 <= v < 1.0 && max > 0
    ensures 0 <= (v * max as real).Floor < max
  {
    var m := max as real;
    assert m > 0.0 && v * m >= 0.0;
    assert (1.0 - v) * m > 0.0;
  }

  /** The padding length of auth_aes128: none for a write that fills a buffer, otherwise about as much as fits one
      segment. */
  method AesPaddingLen(bufSize: nat, fullSize: nat, bufferSize: nat, mss: nat) returns (n: nat)
    ensures fullSize >= bufferSize || bufSize + 9 == mss ==> n == 0
    ensures n > 0 ==>
              || bufSize + 9 + n < mss
              || (mss < bufSize + 9 < 2 * mss && bufSize + 9 + n < 2 * mss)
              || (2 * mss <= bufSize + 9 && n < 32)
  {
    if fullSize >= bufferSize {
      return 0;
    }
    var revLen: int := mss as int - bufSize as int - 9;
    if revLen == 0 {
      return 0;
    }
    if revLen < 0 {
      if revLen + mss > 0 {
        n := TrapezoidInt(revLen + mss);
        return;
      }
      n := Below(32);
      return;
    }
    if bufSize > 900 {
      var r := Below(0x1_0000);
      return r % revLen;
    }
    n := TrapezoidInt(revLen);
  }

  /** The padding of auth_aes128 keeps every frame within the decoder's limit. */
  method AesPadding(bufSize: nat, fullSize: nat, bufferSize: nat, mss: nat) returns (pad: Bytes)
    requires bufSize <= UNIT_LEN && mss <= MAX_MSS
    ensures TellsSize(false, pad) && bufSize + |pad| + 8 < FRAME_LIMIT
  {
    var n := AesPaddingLen(bufSize, fullSize, bufferSize, mss);
    var rnd := URandom(if n < 128 then n else n - 2);
    pad := Padding(false, n + 1, rnd);
  }

  // ----- the connection -----

  /** What a client may have drawn for its greeting. */
  predicate Drawable(p: Protocol, d: Drawn, first: Bytes) {
    && |d.rnd| + |first| + 35 < 0x1_0000
    && (p.AuthSha1V4? ==> TellsSize(true, d.rnd))
    && (p.AuthAes128? && p.param.Some? && p.param.value.uid.Some? ==> d.uid == Le32(p.param.value.uid.value))
  }

  function HelloOf(p: Protocol, card: Card, d: Drawn, first: Bytes): Bytes
    requires Drawable(p, d, first)
  {
    match p
    case AuthSha1V4(sha1, _) => Sha1Hello(sha1, d.rnd, card, first)
    case AuthAes128(aes, _, _, _) => AesHello(aes, ClientKey(p), card, d, first)
  }

  /** What a client's first write has sent: the greeting with the first payload, and after it the frames of the
      messages. */
  ghost predicate FirstWritten(p: Protocol, card: Card, d: Drawn, first: Bytes, msgs: seq<Msg>, out: Bytes,
                               packId: U32) {
    && Drawable(p, d, first)
    && HelloOf(p, card, d, first) <= out
    && PackedSoFar(Framing(FormatOf(p, ClientKey(p))), 1, msgs, out[|HelloOf(p, card, d, first)|..], packId)
  }

  lemma FirstWrittenFrom(p: Protocol, card: Card, d: Drawn, first: Bytes, msgs: seq<Msg>, hello: Bytes, rest: Bytes,
                         packId: U32)
    requires Drawable(p, d, first) && hello == HelloOf(p, card, d, first)
    requires PackedSoFar(Framing(FormatOf(p, ClientKey(p))), 1, msgs, rest, packId)
    ensures FirstWritten(p, card, d, first, msgs, hello + rest, packId)
  {
    assert (hello + rest)[|hello|..] == rest;
  }

  lemma PackedFrame(f: Format, id: U32, m: Msg, frame: Bytes)
    requires Packable(f, m) && frame == Frame(f, id, m)
    ensures PackedSoFar(Framing(f), id, [m], frame, NextId(f, id))
  {
    RunOfOne(Framing(f), id, m);
  }

  lemma {:induction false} FirstCut(first: Bytes, rest: Bytes, buffer: Bytes, k: nat, texts: seq<Bytes>)
    requires k <= |buffer| && first == buffer[..k] && rest == buffer[k..] && texts == Split(UNIT_LEN, rest)
    ensures first + Flatten(texts) == buffer
  {
    SplitFlatten(UNIT_LEN, rest);
  }

  class AuthEnd {
    const proto: Protocol
    /** The method name is the compatible one, so that a stream of another protocol is passed on. */
    const compatible: bool
    const bufferSize: nat
    const mss: nat
    var recvBuf: Bytes
    var rawTrans: bool
    var hasSentHeader: bool
    var hasRecvHeader: bool
    var packId: U32
    var recvId: U32
    var userKey: Option<Bytes>
    var decryptPackets: nat
    var userId: Option<Uid>
    var clientId: U32

    constructor (proto: Protocol, compatible: bool, bufferSize: nat, mss: nat)
      ensures this.proto == proto && this.compatible == compatible && this.bufferSize == bufferSize && this.mss == mss
      ensures !hasSentHeader && packId == 1 && View() == Fresh(proto) && Who() == NOBODY
    {
      this.proto, this.compatible, this.bufferSize, this.mss := proto, compatible, bufferSize, mss;
      recvBuf, rawTrans, hasSentHeader, hasRecvHeader := [], false, false, false;
      packId, recvId, decryptPackets := 1, 1, 0;
      userKey := StartKey(proto);
      userId, clientId := None, 0;
    }

    /** The fields that decoding works on. */
    function View(): End reads this {
      End(rawTrans, hasRecvHeader, userKey, recvId, recvBuf, decryptPackets)
    }

    function Who(): Caller<Uid> reads this {
      Caller(userId, clientId)
    }

    // ----- packing -----

    method RndData(bufSize: nat, fullSize: nat) returns (pad: Bytes)
      requires bufSize <= UNIT_LEN && mss <= MAX_MSS
      ensures TellsSize(proto.AuthSha1V4?, pad) && bufSize + |pad| + 8 < FRAME_LIMIT
    {
      if proto.AuthSha1V4? {
        pad := Sha1Padding(bufSize);
      } else {
        pad := AesPadding(bufSize, fullSize, bufferSize, mss);
      }
    }

    /** One frame. Its size field is its size, within the limits of the decoder. */
    method PackData(key: Bytes, buf: Bytes, fullSize: nat) returns (frame: Bytes, ghost m: Msg)
      requires |buf| <= UNIT_LEN && mss <= MAX_MSS
      modifies this`packId
      ensures m.plain == buf
      ensures PackedSoFar(Framing(FormatOf(proto, key)), old(packId), [m], frame, packId)
      ensures MIN_FRAME <= |frame| < FRAME_LIMIT && frame[..2] == Pack16(proto.AuthSha1V4?, |frame|)
    {
      hide TellsSize, PackedSoFar;
      var f := FormatOf(proto, key);
      var pad := RndData(|buf|, fullSize);
      m := Msg(buf, pad);
      var size := Pack16(f.big, |pad| + |buf| + 8);
      var data := size + f.headTag(packId, size) + pad + buf;
      frame := data + f.tailTag(packId, data);
      PackedFrame(f, packId, m, frame);
      FrameParts(f, packId, m);
      packId := NextId(f, packId);
    }

    /** Cutting and packing what is written. */
    method PackUnits(key: Bytes, buffer: Bytes, fullSize: nat) returns (out: Bytes, ghost msgs: seq<Msg>)
      requires mss <= MAX_MSS
      modifies this`packId
      ensures Texts(msgs) == Split(UNIT_LEN, buffer)
      ensures PackedSoFar(Framing(FormatOf(proto, key)), old(packId), msgs, out, packId)
    {
      hide PackedSoFar, Framing, FormatOf, CutSoFar, Split, Texts, Pack16;
      var buf := buffer;
      out, msgs := [], [];
      ghost var c := Framing(FormatOf(proto, key));
      var frame; ghost var m;
      CutNone(buffer);
      PackedNone(c, packId);
      while |buf| > UNIT_LEN
        invariant CutSoFar(UNIT_LEN, msgs, buf, buffer)
        invariant PackedSoFar(c, old(packId), msgs, out, packId)
        decreases |buf|
      {
        ghost var now := packId;
        frame, m := PackData(key, buf[..UNIT_LEN], fullSize);
        PackedMore(c, old(packId), msgs, out, now, [m], frame, packId);
        CutOneMore(UNIT_LEN, msgs, buf, buffer, m);
        out, msgs := out + frame, msgs + [m];
        buf := buf[UNIT_LEN..];
      }
      ghost var now := packId;
      frame, m := PackData(key, buf, fullSize);
      PackedMore(c, old(packId), msgs, out, now, [m], frame, packId);
      CutLast(UNIT_LEN, msgs, buf, buffer, m);
      out, msgs := out + frame, msgs + [m];
    }

    /** The greeting. An empty first payload makes auth_aes128 send none, and leaves the key unset. */
    method PackAuthData(card: Card, first: Bytes) returns (out: Bytes, ghost d: Drawn)
      requires |first| <= 400
      modifies this`userKey
      ensures proto.AuthAes128? && first == [] ==> out == [] && userKey == old(userKey)
      ensures proto.AuthSha1V4? || first != [] ==>
                && Drawable(proto, d, first) && out == HelloOf(proto, card, d, first)
                && (if proto.AuthSha1V4? then userKey == old(userKey) else userKey == Some(ClientKey(proto)))
    {
      d := Drawn(0, [0, 0, 0, 0], []);
      match proto {
        case AuthSha1V4(sha1, _) =>
          var pad := Sha1Padding(12 + |first|);
          d := Drawn(0, [0, 0, 0, 0], pad);
          out := Sha1Packet(sha1, pad, card, first);
        case AuthAes128(aes, _, _, param) =>
          if first == [] {
            return [], d;
          }
          var n := Below(1024);
          var rnd := URandom(n);
          var uid := URandom(4);
          var head := URandom(1);
          if param.Some? && param.value.uid.Some? {
            uid := Le32(param.value.uid.value);
          }
          var key := ClientKey(proto);
          userKey := Some(key);
          d := Drawn(head[0], uid, rnd);
          out := AesPacket(aes, key, card, head[0], uid, rnd, first);
      }
    }

    static method Sha1Packet(p: Sha1, pad: Bytes, card: Card, first: Bytes) returns (out: Bytes)
      requires |pad| + |first| + 28 < 0x1_0000
      ensures out == Sha1Hello(p, pad, card, first)
    {
      var data := pad + (CardBytes(card) + first);
      var size := Be16(|data| + 16);
      data := size + Le32(p.crc32(size + p.salt + p.key)) + data;
      out := data + p.mac(p.iv + p.key, data)[..10];
    }

    static method AesPacket(p: Aes, key: Bytes, card: Card, head: Byte, uid: Uid, rnd: Bytes, first: Bytes)
      returns (out: Bytes)
      requires FitsSize(rnd, first)
      ensures out == AesHello(p, key, card, Drawn(head, uid, rnd), first)
    {
      var macKey := p.iv + p.key;
      var block := CardBytes(card) + Le16(7 + 4 + 16 + 4 + |first| + |rnd| + 4) + Le16(|rnd|);
      var data := uid + p.encrypt(p.base64(key) + p.salt, block);
      data := data + p.mac(macKey, data)[..4];
      var checkHead := [head] + p.mac(macKey, [head])[..6];
      data := checkHead + data + (rnd + first);
      assert data == AesBody(p, key, card, Drawn(head, uid, rnd), first);
      out := data + p.mac(key, data)[..4];
    }

    /** What a client writes, packed; None is the exception of an auth_aes128 end without a key, which happens on a
        first write of no bytes and on every write after it. */
    method ClientPreEncrypt(buffer: Bytes, card: Card, jitter: nat)
      returns (out: Option<Bytes>, ghost d: Drawn, ghost first: Bytes, ghost msgs: seq<Msg>)
      requires mss <= MAX_MSS && jitter <= 31 && (!hasSentHeader ==> packId == 1 && userKey == StartKey(proto))
      modifies this`hasSentHeader, this`userKey, this`packId
      ensures hasSentHeader
      ensures out == None <==> if old(hasSentHeader) then old(userKey) == None else proto.AuthAes128? && buffer == []
      ensures out == None ==> userKey == None && packId == old(packId)
      ensures out.Some? && old(hasSentHeader) ==>
                && userKey == old(userKey) && Flatten(Texts(msgs)) == buffer
                && PackedSoFar(Framing(FormatOf(proto, userKey.value)), old(packId), msgs, out.value, packId)
      ensures out.Some? && !old(hasSentHeader) ==>
                && userKey == Some(ClientKey(proto)) && first + Flatten(Texts(msgs)) == buffer
                && FirstWritten(proto, card, d, first, msgs, out.value, packId)
    {
      hide PackedSoFar, Framing, FormatOf, Flatten, Texts, Split, FirstWritten, HelloOf, Drawable;
      d, first, msgs := Drawn(0, [0, 0, 0, 0], []), [], [];
      var rest;
      if !hasSentHeader {
        var dataLen := Min(|buffer|, jitter + HeadSize(buffer, 30));
        var hello;
        hello, d := PackAuthData(card, buffer[..dataLen]);
        first := buffer[..dataLen];
        hasSentHeader := true;
        if userKey == None {
          return None, d, first, msgs;
        }
        rest, msgs := PackUnits(userKey.value, buffer[dataLen..], |buffer|);
        FirstWrittenFrom(proto, card, d, first, msgs, hello, rest, packId);
        FirstCut(first, buffer[dataLen..], buffer, dataLen, Texts(msgs));
        out := Some(hello + rest);
      } else if userKey == None {
        out := None;
      } else {
        rest, msgs := PackUnits(userKey.value, buffer, |buffer|);
        SplitFlatten(UNIT_LEN, buffer);
        out := Some(rest);
      }
    }

    /** What a server writes, packed; None is the exception of an auth_aes128 end that has no key yet. */
    method ServerPreEncrypt(buffer: Bytes) returns (out: Option<Bytes>, ghost msgs: seq<Msg>)
      requires mss <= MAX_MSS
      modifies this`packId
      ensures rawTrans ==> out == Some(buffer) && packId == old(packId)
      ensures !rawTrans ==>
                && (out == None <==> userKey == None) && (out == None ==> packId == old(packId))
                && (out.Some? ==>
                      && Flatten(Texts(msgs)) == buffer
                      && PackedSoFar(Framing(FormatOf(proto, userKey.value)), old(packId), msgs, out.value, packId))
    {
      hide PackedSoFar, Framing, FormatOf, Flatten, Texts, Split;
      if rawTrans {
        return Some(buffer), [];
      }
      if userKey == None {
        return None, [];
      }
      var packed;
      packed, msgs := PackUnits(userKey.value, buffer, |buffer|);
      SplitFlatten(UNIT_LEN, buffer);
      out := Some(packed);
    }

    // ----- decoding -----

    /** The receive loop: payloads are output and their frames dropped, until the turn is stuck. */
    method ReceiveLoop(step: Stepper<Inbound>, asked: bool) returns (out: Bytes, asked': bool, verdict: Verdict)
      requires Progress(step)
      modifies this`recvBuf, this`recvId
      ensures var r := Decode(step, Inbound(old(recvId), asked), old(recvBuf));
              out == Flatten(r.frames) && Inbound(recvId, asked') == r.state && recvBuf == r.rest
                && verdict == r.verdict
    {
      out, asked' := [], asked;
      ghost var whole := Decode(step, Inbound(recvId, asked), recvBuf);
      ghost var done: seq<Bytes> := [];
      assert whole.frames == done + whole.frames;
      while true
        invariant LoopSoFar(step, whole, done, Inbound(recvId, asked'), recvBuf, out)
        decreases |recvBuf|
      {
        var turn := step(Inbound(recvId, asked'), recvBuf);
        if turn.Stuck? {
          LoopStuck(step, whole, done, Inbound(recvId, asked'), recvBuf, out);
          recvId, asked', verdict := turn.state.id, turn.state.asked, turn.verdict;
          return;
        }
        LoopOneMore(step, whole, done, Inbound(recvId, asked'), recvBuf, out);
        done := done + [turn.plain];
        out := out + turn.plain;
        recvId, asked' := turn.state.id, turn.state.asked;
        recvBuf := recvBuf[turn.size..];
      }
    }

    /** Bytes from the server, decoded. */
    method ClientPostDecrypt(buf: Bytes) returns (reply: Reply)
      modifies this`recvBuf, this`recvId, this`rawTrans, this`decryptPackets
      ensures (View(), reply) == ClientCall(proto, old(View()), buf)
    {
      hide Decode, Turns, Flatten, FormatOf;
      if rawTrans {
        return Data(buf, false);
      }
      recvBuf := recvBuf + buf;
      if userKey == None {
        return if |recvBuf| > 4 then Raised else Data([], false);
      }
      var f := FormatOf(proto, userKey.value);
      TurnsRegular(f);
      var out, asked, verdict := ReceiveLoop(Turns(f), false);
      if verdict != More {
        if verdict != BadHead {
          rawTrans, recvBuf := true, [];
        }
        return Raised;
      }
      decryptPackets := Counted(proto, out, decryptPackets);
      reply := Data(out, false);
    }

    /** The answer to a stream of another protocol. */
    method NotMatchReturn() returns (reply: Reply)
      modifies this`rawTrans
      ensures rawTrans && reply == if compatible then Data(recvBuf, false) else Rejected
    {
      rawTrans := true;
      reply := if compatible then Data(recvBuf, false) else Rejected;
    }

    /** The server's receive loop behind the payload first of a greeting. */
    method ServerReceive(key: Bytes, first: Bytes, asked: bool) returns (reply: Reply)
      requires !rawTrans
      modifies this`recvBuf, this`recvId, this`rawTrans, this`decryptPackets
      ensures (View(), reply) == ServerDecodes(proto, FormatOf(proto, key), old(View()), old(recvBuf), first, asked)
    {
      hide Decode, Turns, Flatten, FormatOf;
      var f := FormatOf(proto, key);
      TurnsRegular(f);
      var out, asked', verdict := ReceiveLoop(Turns(f), asked);
      if verdict != More {
        rawTrans := true;
        if verdict != BadHead {
          recvBuf := [];
        }
        var count: int := if proto.AuthSha1V4? then decryptPackets else recvId;
        return if count == 0 then Rejected else Raised;
      }
      decryptPackets := Counted(proto, first + out, decryptPackets);
      reply := Data(first + out, asked');
    }

    /** What a server does with all the bytes received so far, given its judgement of the greeting in them. */
    method AnswerGreeting(j: Judgement) returns (reply: Reply)
      requires !rawTrans && !hasRecvHeader
      modifies this`recvBuf, this`recvId, this`rawTrans, this`decryptPackets, this`hasRecvHeader, this`userKey
      ensures var e, received := old(View()), old(recvBuf);
              (View(), reply) ==
              match j
              case Wait => (e, Data([], false))
              case Broken => (e, Raised)
              case NoMatch => (e.(raw := true), if compatible then Data(received, false) else Rejected)
              case Greeted(key, first, size) =>
                ServerDecodes(proto, FormatOf(proto, key), e.(greeted := true, key := Some(key)),
                              Slice(received, size, |received|),
                              first, true)
    {
      hide Decode, Turns, Flatten, FormatOf, Slice;
      match j {
        case Wait =>
          reply := Data([], false);
        case Broken =>
          reply := Raised;
        case NoMatch =>
          reply := NotMatchReturn();
        case Greeted(key, first, size) =>
          hasRecvHeader, userKey := true, Some(key);
          recvBuf := Slice(recvBuf, size, |recvBuf|);
          reply := ServerReceive(key, first, true);
      }
    }

    /** Bytes from the client, decoded. now is the server's clock; admitted is the answer of the tables of clients to a
        greeting that is otherwise good. */
    method Decipher(buf: Bytes, now: U32, admitted: bool) returns (reply: Reply)
      requires hasRecvHeader ==> userKey.Some?
      modifies this`recvBuf, this`recvId, this`rawTrans, this`decryptPackets, this`hasRecvHeader, this`userKey
      ensures (View(), reply) == ServerCall(proto, compatible, old(View()), Call(buf, now, admitted))
    {
      hide Decode, Turns, Flatten, FormatOf, JudgeOf, Slice, KeyAfter;
      if rawTrans {
        return Data(buf, false);
      }
      recvBuf := recvBuf + buf;
      if hasRecvHeader {
        reply := ServerReceive(userKey.value, [], false);
      } else {
        var j := JudgeOf(proto, now, admitted)(recvBuf);
        userKey := KeyAfter(proto, recvBuf, userKey);
        reply := AnswerGreeting(j);
      }
    }

    /** The tables of clients are asked about a greeting that is good in all else. */
    method AskTables(received: Bytes, now: U32, data: UserData<Option<Uid>>, clock: real) returns (admitted: bool)
      requires data.Valid() && data.rule == Idle
      modifies this`userId, this`clientId, data, data.tables.Values
      ensures data.Valid() && fresh(data.tables.Values - old(data.tables.Values))
      ensures var named := old(Who()).(user := UserNamed(proto, received, old(userId)));
              Answer(admitted, Who(), data.View()) ==
              Asked(Idle, data.maxClient, old(data.View()), named, IdsOf(CardOf(proto, now, received)), clock)
    {
      hide UserNamed, CardOf, UserInserted, data.Valid, data.View;
      userId := UserNamed(proto, received, userId);
      var card := CardOf(proto, now, received);
      admitted := true;
      if card.Some? {
        admitted := data.Insert(userId, card.value.clientId, card.value.connectionId, clock);
        if admitted {
          clientId := card.value.clientId;
        }
      }
    }

    /** The table hears of the data that has come. */
    method TellTables(reply: Reply, data: UserData<Option<Uid>>, clock: real)
      requires data.Valid()
      modifies data, data.tables.Values
      ensures data.Valid() && fresh(data.tables.Values - old(data.tables.Values))
      ensures data.View() == Refreshed(old(data.View()), Who(), reply, clock)
    {
      hide UserUpdated;
      if Delivered(reply) != [] {
        data.Update(userId, clientId, clock);
      }
    }

    /** Bytes from the client, decoded, with the tables of clients that all connections share. now and clock are the
        time, in the two ways the server looks at it. */
    method ServerPostDecrypt(buf: Bytes, data: UserData<Option<Uid>>, now: U32, clock: real) returns (reply: Reply)
      requires (hasRecvHeader ==> userKey.Some?) && data.Valid() && data.rule == Idle
      modifies this`recvBuf, this`recvId, this`rawTrans, this`decryptPackets, this`hasRecvHeader, this`userKey
      modifies this`userId, this`clientId, data, data.tables.Values
      ensures data.Valid() && fresh(data.tables.Values - old(data.tables.Values))
      ensures Outcome(View(), Who(), data.View(), reply) ==
              GuardedCall(proto, compatible, data.maxClient, old(View()), old(Who()), old(data.View()), buf, now, clock)
    {
      hide ServerCall, Asked, Refreshed, CardOf, UserNamed, data.Valid, data.View;
      if rawTrans {
        return Data(buf, false);
      }
      var admitted := true;
      if hasRecvHeader {
        StaysGreeted(proto, compatible, View(), Call(buf, now, true));
      } else {
        admitted := AskTables(recvBuf + buf, now, data, clock);
      }
      reply := Decipher(buf, now, admitted);
      if hasRecvHeader {
        TellTables(reply, data, clock);
      }
    }
  }

  lemma LoopStuck(step: Stepper<Inbound>, whole: Decoded<Inbound>, done: seq<Bytes>, d: Inbound, buf: Bytes, out: Bytes)
    requires LoopSoFar(step, whole, done, d, buf, out) && step(d, buf).Stuck?
    ensures whole == Decoded(done, step(d, buf).state, buf, step(d, buf).verdict) && out == Flatten(whole.frames)
  {
    assert done + [] == done;
  }

  lemma CutNone(buffer: Bytes)
    ensures CutSoFar(UNIT_LEN, [], buffer, buffer)
  {
  }

  lemma PackedNone(c: Codec<U32, Inbound>, id: U32)
    ensures PackedSoFar(c, id, [], [], id)
  {
  }
}
