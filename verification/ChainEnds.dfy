/**
 * The receiving ends of an auth_chain connection as values: what each call of server_post_decrypt and
 * client_post_decrypt does to the fields of its object and what it returns. The methods of AuthChain.dfy
 * are proved equal to ServerCall and ClientCall.
 */
module ChainEnds {
  import opened ByteStrings
  import opened ChainCodec
  import opened ChainHandshake
  import opened FrameLoop
  import opened Options
  import opened StreamBasics
  import opened UserTables
  import ReplayWindow

  /** What the object is configured with. */
  datatype Config = Config(p: Primitives, salt: Bytes, key: Bytes, iv: Bytes, recvIv: Bytes, overhead: U16,
                           users: map<U32, Bytes>, param: Option<UserParam>)

  const UNIT_LEN := 2800
  const NO_DIGEST: Digest := Zeros(16)
  const FRESH_SIDE := Side(NO_DIGEST, 1, 0, UNSEEDED)

  /** The key a client signs with. */
  function UserKey(cfg: Config): Bytes {
    if cfg.param.Some? then cfg.param.value.key else cfg.key
  }

  /** A turn that opens a frame moves on to the next frame number. */
  ghost predicate Numbered(step: Stepper<Side>) {
    forall d, b :: step(d, b).state.id == if step(d, b).Got? then Succ32(d.id) else d.id
  }

  lemma TurnsProgress(p: Primitives, s: Session)
    ensures Progress(Turns(p, s)) && Numbered(Turns(p, s))
  {
  }

  lemma NextIds(id: U32, n: nat)
    ensures (Succ32(id) + n) % 0x1_0000_0000 == (id + (1 + n)) % 0x1_0000_0000
  {
  }

  lemma {:induction false} IdsOfLoop(step: Stepper<Side>, d: Side, buf: Bytes)
    requires Progress(step) && Numbered(step)
    ensures Decode(step, d, buf).state.id == (d.id + |Decode(step, d, buf).frames|) % 0x1_0000_0000
    decreases |buf|
  {
    var t := step(d, buf);
    assert t.state.id == if t.Got? then Succ32(d.id) else d.id;
    if t.Got? {
      IdsOfLoop(step, t.state, buf[t.size..]);
      NextIds(d.id, |Decode(step, t.state, buf[t.size..]).frames|);
      hide Succ32;
    }
  }

  // ----- the server -----

  /** The greeting as the server judges it: also the time must be right and the connection id be admitted. */
  function JudgeHello(cfg: Config, buf: Bytes, now: U32, admitted: bool): (r: HelloResult)
    ensures r.Greeted? ==> |buf| >= HELLO_SIZE
  {
    var r := ReadHello(cfg.p, cfg.users, cfg.key, cfg.recvIv, cfg.salt, buf);
    if r.Greeted? && !(TimeAccepted(r.greeting.card.utc, now) && admitted) then NoMatch else r
  }

  /** What a server holds: whether it passes bytes through, whether it has taken a greeting, the session, both
      directions, the overhead the client asked for, and the bytes not used yet. */
  datatype ServerEnd = ServerEnd(raw: bool, greeted: bool, session: Option<Session>, incoming: Side, outgoing: Side,
                                 overhead: nat, buf: Bytes)

  /** A server that has these bytes of a greeting. */
  function Greetable(buf: Bytes): ServerEnd {
    ServerEnd(false, false, None, FRESH_SIDE, FRESH_SIDE, 4, buf)
  }

  const FRESH_SERVER := Greetable([])

  /** Data, with a packet in return for the greeting and for every empty payload; nothing of it when the loop fails. */
  function ServerAnswer(r: Decoded<Side>, greeted: bool): Reply {
    if r.verdict == More then Data(Flatten(r.frames), greeted || [] in r.frames)
    else if r.state.id == 0 then Rejected
    else Raised
  }

  /** The receive loop on what has been received; a failure throws the rest away and ends the protocol. */
  function ServerDecodes(step: Stepper<Side>, e: ServerEnd, received: Bytes, greeted: bool): (ServerEnd, Reply) {
    var r := Decode(step, e.incoming, received);
    (e.(raw := r.verdict != More, incoming := r.state, buf := if r.verdict == More then r.rest else []),
     ServerAnswer(r, greeted))
  }

  /** The server takes the keys and digests from a greeting and starts both directions from them. */
  function Welcomed(e: ServerEnd, g: Greeting): ServerEnd {
    e.(greeted := true, session := Some(g.session), overhead := g.card.overhead,
       incoming := e.incoming.(hash := g.clientHash, offset := 0),
       outgoing := e.outgoing.(hash := g.serverHash, offset := 0))
  }

  predicate ServerSane(e: ServerEnd) {
    e.greeted ==> e.session.Some?
  }

  function ServerCall(cfg: Config, e: ServerEnd, c: Call): (r: (ServerEnd, Reply))
    requires ServerSane(e)
    ensures ServerSane(r.0)
  {
    if e.raw then (e, Data(c.chunk, false))
    else
      var received := e.buf + c.chunk;
      if e.greeted then ServerDecodes(Turns(cfg.p, e.session.value), e, received, false)
      else
        match JudgeHello(cfg, received, c.now, c.admitted)
        case Wait => (e.(buf := received), Data([], false))
        case NoMatch => (e.(raw := true, buf := received), Rejected)
        case Greeted(g, _) => ServerDecodes(Turns(cfg.p, g.session), Welcomed(e, g), received[HELLO_SIZE..], true)
  }

  // ----- the server with its tables of clients -----

  /** Nobody yet. */
  const NOBODY: Caller<U32> := Caller(None, 0)

  /** The user that a server knows after looking at these bytes of a greeting: the one in it, if the head is right and
      the server has that user. */
  function UserNamed(cfg: Config, buf: Bytes, user: Option<U32>): Option<U32> {
    if |buf| < HELLO_SIZE || HeadFails(cfg.p, cfg.recvIv + cfg.key, buf) then user
    else
      var uid := SentUid(buf, cfg.p.mac(cfg.recvIv + cfg.key, buf[..4]));
      if uid in cfg.users then Some(uid) else user
  }

  lemma NamedWhenRead(cfg: Config, buf: Bytes, user: Option<U32>)
    requires ReadHello(cfg.p, cfg.users, cfg.key, cfg.recvIv, cfg.salt, buf).Greeted?
    ensures var uid := ReadHello(cfg.p, cfg.users, cfg.key, cfg.recvIv, cfg.salt, buf).uid;
            UserNamed(cfg, buf, user) == if uid in cfg.users then Some(uid) else user
  {
    hide HeadFails, Le32, UnLe32, Xor32, ReadCard, NewSession, BlockPassword, LookupKey;
    assert buf[..HELLO_SIZE][..4] == buf[..4] && buf[..HELLO_SIZE][12..16] == buf[12..16];
  }

  /** The ids in a greeting that is good in all else. */
  function IdsOf(cfg: Config, buf: Bytes, now: U32): Option<Ids> {
    match JudgeHello(cfg, buf, now, true)
    case Greeted(g, _) => Some(Ids(g.card.clientId, g.card.connectionId))
    case _ => None
  }

  /** server_post_decrypt with the tables of clients. They are asked about a greeting that is good in all else, and told
      of the data that comes. */
  function GuardedCall(cfg: Config, max: int, e: ServerEnd, who: Caller<U32>, us: Tables<Option<U32>>, chunk: Bytes,
                       now: U32, clock: real): Outcome<ServerEnd, U32>
    requires ServerSane(e)
  {
    if e.raw then Outcome(e, who, us, Data(chunk, false))
    else
      var received := e.buf + chunk;
      var a := if e.greeted then Answer(true, who, us)
               else Asked(ReplayWindow.CountedIdle, max, us, who.(user := UserNamed(cfg, received, who.user)),
                          IdsOf(cfg, received, now), clock);
      var (e', reply) := ServerCall(cfg, e, Call(chunk, now, a.admitted));
      Outcome(e', a.who, if e'.greeted then Refreshed(a.tables, a.who, reply, clock) else a.tables, reply)
  }

  /** Without a good greeting the answer of the tables does not matter. */
  lemma NotAsked(cfg: Config, e: ServerEnd, chunk: Bytes, now: U32, admitted: bool)
    requires ServerSane(e) && (e.raw || e.greeted || IdsOf(cfg, e.buf + chunk, now) == None)
    ensures ServerCall(cfg, e, Call(chunk, now, admitted)) == ServerCall(cfg, e, Call(chunk, now, true))
  {
    hide ReadHello;
  }

  /** A greeting is taken once. */
  lemma StaysGreeted(cfg: Config, e: ServerEnd, c: Call)
    requires ServerSane(e) && e.greeted
    ensures ServerCall(cfg, e, c).0.greeted
  {
  }

  // ----- the server's loop -----

  /** The server's receive loop after the payloads done: an empty one asks for a packet in return. */
  ghost predicate ReceivedSoFar(step: Stepper<Side>, whole: Decoded<Side>, done: seq<Bytes>, d: Side, buf: Bytes,
                                out: Bytes, sendback: bool, greeted: bool) {
    LoopSoFar(step, whole, done, d, buf, out) && sendback == (greeted || [] in done)
  }

  lemma ReceivedOneMore(step: Stepper<Side>, whole: Decoded<Side>, done: seq<Bytes>, d: Side, buf: Bytes, out: Bytes,
                        sendback: bool, greeted: bool)
    requires ReceivedSoFar(step, whole, done, d, buf, out, sendback, greeted)
    requires step(d, buf).Got? && 0 < step(d, buf).size <= |buf|
    ensures var t := step(d, buf);
            ReceivedSoFar(step, whole, done + [t.plain], t.state, buf[t.size..], out + t.plain,
                          sendback || t.plain == [], greeted)
  {
    LoopOneMore(step, whole, done, d, buf, out);
  }

  lemma {:induction false} ReceivedAll(step: Stepper<Side>, e: ServerEnd, received: Bytes, done: seq<Bytes>, d: Side,
                                       buf: Bytes, out: Bytes, sendback: bool, greeted: bool)
    requires ReceivedSoFar(step, Decode(step, e.incoming, received), done, d, buf, out, sendback, greeted)
    requires step(d, buf).Stuck?
    ensures var t := step(d, buf);
            ServerDecodes(step, e, received, greeted) ==
            if t.verdict == More then (e.(raw := false, incoming := t.state, buf := buf), Data(out, sendback))
            else (e.(raw := true, incoming := t.state, buf := []), if t.state.id == 0 then Rejected else Raised)
  {
    var t := step(d, buf);
    assert Decode(step, d, buf) == Decoded([], t.state, buf, t.verdict);
    assert done + [] == done;
  }

  // ----- the client -----

  /** The first write, with the MSS that goes before it. */
  function WithMss(packId: U32, tcpMss: nat, buffer: Bytes): Bytes {
    if packId == 1 then Le16(Min(tcpMss, 1500)) + buffer else buffer
  }

  /** What the client makes of decoded payloads: the frame numbered 1 starts with the MSS. */
  datatype Intake = Taken(out: Bytes, mss: nat) | TooShort

  function TakeFrames(id: U32, frames: seq<Bytes>, acc: Bytes, mss: nat): Intake
    decreases |frames|
  {
    if frames == [] then Taken(acc, mss)
    else
      var out := acc + frames[0];
      if id != 1 then TakeFrames(Succ32(id), frames[1..], out, mss)
      else if |out| < 2 then TooShort
      else TakeFrames(Succ32(id), frames[1..], out[2..], UnLe16(out[..2]))
  }

  /** How many frames, from number id on, until number 1 comes (again). */
  function Room(id: U32): nat {
    if id == 0 then 1 else if id == 1 then 0x1_0000_0000 else 0x1_0000_0001 - id
  }

  /** Away from frame 1, the client outputs the payloads as they are. */
  lemma {:induction false} TakeLater(id: U32, frames: seq<Bytes>, acc: Bytes, mss: nat)
    requires id != 1 && |frames| <= Room(id)
    ensures TakeFrames(id, frames, acc, mss) == Taken(acc + Flatten(frames), mss)
    decreases |frames|
  {
    if frames == [] {
      assert acc + Flatten(frames) == acc;
    } else {
      if |frames| > 1 {
        TakeLater(Succ32(id), frames[1..], acc + frames[0], mss);
      } else {
        assert frames[1..] == [];
      }
      assert (acc + frames[0]) + Flatten(frames[1..]) == acc + Flatten(frames);
    }
  }

  /** The payload bytes that a call outputs: all of them, but for the two bytes of the MSS in front of frame 1. */
  function ClientText(id: U32, frames: seq<Bytes>): Bytes
    requires id == 1 && frames != [] ==> |frames[0]| >= 2
  {
    if id == 1 && frames != [] then Flatten(frames)[2..] else Flatten(frames)
  }

  /** Frame 1 is too short for the MSS. */
  predicate Short(id: U32, frames: seq<Bytes>) {
    id == 1 && frames != [] && |frames[0]| < 2
  }

  function MssAfter(id: U32, frames: seq<Bytes>, mss: nat): nat
    requires !Short(id, frames)
  {
    if id == 1 && frames != [] then UnLe16(frames[0][..2]) else mss
  }

  /** A call that comes to frame 1 at most once raises if that frame is too short for the MSS; otherwise it outputs the
      payloads without the MSS. */
  lemma {:induction false} TakeAll(id: U32, frames: seq<Bytes>, mss: nat)
    requires |frames| <= Room(id)
    ensures TakeFrames(id, frames, [], mss)
         == if Short(id, frames) then TooShort else Taken(ClientText(id, frames), MssAfter(id, frames, mss))
  {
    if id != 1 || frames == [] {
      if frames != [] {
        TakeLater(id, frames, [], mss);
      }
      assert [] + Flatten(frames) == Flatten(frames);
    } else {
      assert [] + frames[0] == frames[0];
      if |frames[0]| >= 2 {
        var rest := frames[1..];
        TakeLater(2, rest, frames[0][2..], UnLe16(frames[0][..2]));
        assert frames[0][2..] + Flatten(rest) == (frames[0] + Flatten(rest))[2..];
      }
    }
  }

  /** How the client's receive loop stops: its direction, the bytes left, the MSS, whether bytes are passed through
      from then on, and its reply. The exception for a frame 1 that is too short leaves the frame in the buffer and
      its number as it was. */
  datatype ClientStop = ClientStop(side: Side, rest: Bytes, mss: nat, raw: bool, reply: Reply)

  function ClientLoop(step: Stepper<Side>, d: Side, buf: Bytes, acc: Bytes, mss: nat): ClientStop
    decreases |buf|
  {
    var t := step(d, buf);
    if t.Stuck? then
      if t.verdict == More then ClientStop(t.state, buf, mss, false, Data(acc, false))
      else ClientStop(t.state, [], mss, true, Raised)
    else
      var out := acc + t.plain;
      if d.id == 1 && |out| < 2 then ClientStop(t.state.(id := d.id), buf, mss, false, Raised)
      else if t.size == 0 || t.size > |buf| then ClientStop(d, buf, mss, false, Data(acc, false))
      else if d.id == 1 then ClientLoop(step, t.state, buf[t.size..], out[2..], UnLe16(out[..2]))
      else ClientLoop(step, t.state, buf[t.size..], out, mss)
  }

  /** The loop is decoding, and taking the MSS off. */
  lemma {:induction false} ClientLoopDecodes(step: Stepper<Side>, d: Side, buf: Bytes, acc: Bytes, mss: nat)
    requires Progress(step) && Numbered(step)
    ensures var r := Decode(step, d, buf);
            var t := TakeFrames(d.id, r.frames, acc, mss);
            var stop := ClientLoop(step, d, buf, acc, mss);
            if t.TooShort? then stop.reply == Raised && !stop.raw
            else if r.verdict == More then stop == ClientStop(r.state, r.rest, t.mss, false, Data(t.out, false))
            else stop == ClientStop(r.state, [], t.mss, true, Raised)
    decreases |buf|
  {
    var t := step(d, buf);
    if t.Got? {
      var out := acc + t.plain;
      var r, rest := Decode(step, d, buf), Decode(step, t.state, buf[t.size..]);
      assert r.frames[0] == t.plain && r.frames[1..] == rest.frames;
      if d.id != 1 {
        ClientLoopDecodes(step, t.state, buf[t.size..], out, mss);
      } else if |out| >= 2 {
        ClientLoopDecodes(step, t.state, buf[t.size..], out[2..], UnLe16(out[..2]));
      }
    }
  }

  /** What a client holds. */
  datatype ClientEnd = ClientEnd(raw: bool, session: Option<Session>, incoming: Side, buf: Bytes, mss: nat)

  function ClientDecodes(step: Stepper<Side>, e: ClientEnd, received: Bytes): (ClientEnd, Reply) {
    var stop := ClientLoop(step, e.incoming, received, [], e.mss);
    (e.(raw := stop.raw, incoming := stop.side, buf := stop.rest, mss := stop.mss), stop.reply)
  }

  /** Before its first write a client has no keys, and raises as soon as a frame could begin. */
  function ClientCall(p: Primitives, e: ClientEnd, chunk: Bytes): (ClientEnd, Reply) {
    if e.raw then (e, Data(chunk, false))
    else
      var received := e.buf + chunk;
      if e.session == None then (e.(buf := received), if |received| > 4 then Raised else Data([], false))
      else ClientDecodes(Turns(p, e.session.value), e, received)
  }

  // ----- chunk boundaries, as a caller sees them -----

  /** What follows from feeding a + b at once is what follows from feeding a and then b, but for the bytes handed
      over. A packet in return is asked for by one of the two calls if the whole call, unless it fails, asks for it. */
  lemma ServerCallChunks(cfg: Config, e: ServerEnd, a: Call, b: Call, whole: Call)
    requires GoodPadding(cfg.p) && !e.raw && e.greeted && ServerSane(e) && whole.chunk == a.chunk + b.chunk
    ensures var (e1, r1) := ServerCall(cfg, e, a);
            var (e2, r2) := ServerCall(cfg, e1, b);
            var (e3, r3) := ServerCall(cfg, e, whole);
            var step := Turns(cfg.p, e.session.value);
            && e2 == e3 && (!e3.raw ==> SameRequest(r1, r2, r3))
            && (Delivered(r1) + Delivered(r2) == Delivered(r3)
                <==> LosesNothing(Decode(step, e.incoming, e.buf + a.chunk),
                                  Decode(step, e.incoming, e.buf + whole.chunk), b.chunk))
  {
    hide Turns, Decode, Flatten, GoodPadding;
    var step := Turns(cfg.p, e.session.value);
    TurnsRegular(cfg.p, e.session.value);
    assert e.buf + whole.chunk == (e.buf + a.chunk) + b.chunk;
    HandedChunks(step, e.incoming, e.buf + a.chunk, b.chunk);
    DecodeChunks(step, e.incoming, e.buf + a.chunk, b.chunk);
    assert [] + b.chunk == b.chunk;
  }

  /** A turn that waited leaves the client's loop where it was. */
  lemma {:induction false} ClientLoopRestart(step: Stepper<Side>, d: Side, a: Bytes, b: Bytes, acc: Bytes, mss: nat)
    requires Restartable(step) && Progress(step) && Numbered(step) && Waits(step, d, a)
    ensures ClientLoop(step, step(d, a).state, a + b, acc, mss) == ClientLoop(step, d, a + b, acc, mss)
  {
    assert step(step(d, a).state, a + b) == step(d, a + b);
  }

  /** Calls that come to frame 1 at most once do so in their first frame. */
  lemma RoomAfter(id: U32, done: nat, more: nat)
    requires done + more <= Room(id) && done > 0
    ensures var id' := (id + done) % 0x1_0000_0000;
            more <= Room(id') && (id' == 1 ==> more == 0)
  {
  }

  /** Two calls one after the other take off the MSS as one call does. */
  lemma TextsOfTwo(id: U32, x: seq<Bytes>, y: seq<Bytes>, mss: nat)
    requires |x| + |y| <= Room(id) && x != [] && !Short(id, x)
    ensures var id' := (id + |x|) % 0x1_0000_0000;
            && |y| <= Room(id') && !Short(id', y) && !Short(id, x + y)
            && ClientText(id, x) + ClientText(id', y) == ClientText(id, x + y)
            && MssAfter(id', y, MssAfter(id, x, mss)) == MssAfter(id, x + y, mss)
  {
    RoomAfter(id, |x|, |y|);
    FlattenAppend(x, y);
    assert |Flatten(x)| >= |x[0]|;
    hide Flatten, Room, UnLe16;
  }

  /** What a call of the client comes to, for the frames decoded in it. */
  lemma {:induction false} ClientDecodesTo(step: Stepper<Side>, e: ClientEnd, received: Bytes)
    requires Progress(step) && Numbered(step) && |Decode(step, e.incoming, received).frames| <= Room(e.incoming.id)
    ensures var r := Decode(step, e.incoming, received);
            var (e', reply) := ClientDecodes(step, e, received);
            var id := e.incoming.id;
            if Short(id, r.frames) then reply == Raised && !e'.raw
            else if r.verdict == More then
              e' == e.(raw := false, incoming := r.state, buf := r.rest, mss := MssAfter(id, r.frames, e.mss))
              && reply == Data(ClientText(id, r.frames), false)
            else
              e' == e.(raw := true, incoming := r.state, buf := [], mss := MssAfter(id, r.frames, e.mss))
                && reply == Raised
  {
    hide Decode, Flatten, ClientLoop;
    ClientLoopDecodes(step, e.incoming, received, [], e.mss);
    TakeAll(e.incoming.id, Decode(step, e.incoming, received).frames, e.mss);
  }

  /** What a client end is told in two calls and in one. */
  ghost predicate SameInTwo(step: Stepper<Side>, e: ClientEnd, a: Bytes, b: Bytes, first: (ClientEnd, Reply),
                            second: (ClientEnd, Reply), both: (ClientEnd, Reply)) {
    var x, whole := Decode(step, e.incoming, e.buf + a), Decode(step, e.incoming, e.buf + (a + b));
    if Short(e.incoming.id, x.frames) then first.1 == Raised && both.1 == Raised
    else
      && second.0 == both.0
      && (Delivered(first.1) + Delivered(second.1) == Delivered(both.1)
          <==> whole.verdict == More
               || (if x.verdict == More then ClientText(e.incoming.id, x.frames) == [] else b == []))
  }

  /** Nothing was decoded from a. */
  lemma {:induction false} TwoCallsWaited(step: Stepper<Side>, e: ClientEnd, a: Bytes, b: Bytes)
    requires Settled(step) && Restartable(step) && Progress(step) && Numbered(step) && !e.raw
    requires |Decode(step, e.incoming, (e.buf + a) + b).frames| <= Room(e.incoming.id)
    requires Decode(step, e.incoming, e.buf + a).frames == [] && Decode(step, e.incoming, e.buf + a).verdict == More
    ensures var (e1, r1) := ClientDecodes(step, e, e.buf + a);
            && !e1.raw && r1 == Data([], false)
            && ClientDecodes(step, e1, e1.buf + b) == ClientDecodes(step, e, (e.buf + a) + b)
  {
    hide Flatten, Room;
    WaitedAt(step, e.incoming, e.buf + a);
    hide Decode;
    ClientLoopRestart(step, e.incoming, e.buf + a, b, [], e.mss);
  }

  /** Frames were decoded from a. */
  lemma {:induction false} TwoCallsGot(step: Stepper<Side>, e: ClientEnd, a: Bytes, b: Bytes)
    requires Settled(step) && Restartable(step) && Progress(step) && Numbered(step) && !e.raw
    requires |Decode(step, e.incoming, (e.buf + a) + b).frames| <= Room(e.incoming.id)
    requires var x := Decode(step, e.incoming, e.buf + a);
             x.frames != [] && x.verdict == More && !Short(e.incoming.id, x.frames)
    ensures var (e1, r1) := ClientDecodes(step, e, e.buf + a);
            var (e2, r2) := ClientDecodes(step, e1, e1.buf + b);
            var (e3, r3) := ClientDecodes(step, e, (e.buf + a) + b);
            var x := Decode(step, e.incoming, e.buf + a);
            && !e1.raw && e2 == e3 && Delivered(r1) == ClientText(e.incoming.id, x.frames)
            && (if Decode(step, e.incoming, (e.buf + a) + b).verdict == More then
                  Delivered(r1) + Delivered(r2) == Delivered(r3)
                else
                  Delivered(r2) == [] && Delivered(r3) == [])
  {
    hide Decode, Flatten, ClientLoop, ClientDecodes, ClientText, MssAfter, Room;
    var d, id := e.incoming, e.incoming.id;
    var x := Decode(step, d, e.buf + a);
    DecodeChunks(step, d, e.buf + a, b);
    var y := Decode(step, x.state, x.rest + b);
    IdsOfLoop(step, d, e.buf + a);
    TextsOfTwo(id, x.frames, y.frames, e.mss);
    hide Settled, Restartable, Progress, Numbered, Short;
    ClientDecodesTo(step, e, e.buf + a);
    var e1 := ClientDecodes(step, e, e.buf + a).0;
    ClientDecodesTo(step, e1, x.rest + b);
    ClientDecodesTo(step, e, (e.buf + a) + b);
  }

  lemma {:induction false} ClientTwoCalls(step: Stepper<Side>, e: ClientEnd, a: Bytes, b: Bytes)
    requires Settled(step) && Restartable(step) && Progress(step) && Numbered(step) && !e.raw
    requires |Decode(step, e.incoming, e.buf + (a + b)).frames| <= Room(e.incoming.id)
    ensures var first := ClientDecodes(step, e, e.buf + a);
            var second := if first.0.raw then (first.0, Data(b, false))
                          else ClientDecodes(step, first.0, first.0.buf + b);
            SameInTwo(step, e, a, b, first, second, ClientDecodes(step, e, e.buf + (a + b)))
  {
    assert ClientText(e.incoming.id, []) == [];
    hide Decode, Flatten, ClientLoop, ClientText, MssAfter, Room;
    var d, buf := e.incoming, e.buf;
    assert buf + (a + b) == (buf + a) + b;
    var x := Decode(step, d, buf + a);
    if x.verdict == More && x.frames == [] {
      hide ClientDecodes;
      TwoCallsWaited(step, e, a, b);
    } else if x.verdict == More && !Short(d.id, x.frames) {
      hide ClientDecodes;
      TwoCallsGot(step, e, a, b);
    } else {
      DecodeChunks(step, d, buf + a, b);
      ClientDecodesTo(step, e, buf + a);
      ClientDecodesTo(step, e, (buf + a) + b);
    }
  }

  lemma {:induction false} WaitedAt(step: Stepper<Side>, d: Side, a: Bytes)
    requires Progress(step) && Decode(step, d, a).frames == [] && Decode(step, d, a).verdict == More
    ensures Waits(step, d, a) && Decode(step, d, a) == Decoded([], step(d, a).state, a, More)
  {
  }

  /** The same for the client, in a call that comes to frame 1 at most once. A frame 1 too short for the MSS makes both
      the call that completes it and the call on the whole raise. */
  lemma {:induction false} ClientCallChunks(p: Primitives, e: ClientEnd, a: Bytes, b: Bytes)
    requires GoodPadding(p) && !e.raw && e.session.Some?
    requires |Decode(Turns(p, e.session.value), e.incoming, e.buf + (a + b)).frames| <= Room(e.incoming.id)
    ensures var first := ClientCall(p, e, a);
            SameInTwo(Turns(p, e.session.value), e, a, b, first, ClientCall(p, first.0, b), ClientCall(p, e, a + b))
  {
    hide Turns, Decode, Flatten, GoodPadding, ClientLoop, SameInTwo;
    TurnsRegular(p, e.session.value);
    TurnsProgress(p, e.session.value);
    ClientTwoCalls(Turns(p, e.session.value), e, a, b);
  }

  // ----- a failure that takes data with it -----

  /** A frame whose tag has been changed. */
  function Tampered(frame: Bytes): Bytes
    requires |frame| > 0
  {
    frame[..|frame| - 1] + [if frame[|frame| - 1] == 0 then 1 else 0]
  }

  /** The tag no longer fits the bytes before it. */
  lemma TamperedTag(head: Bytes, tag: Bytes)
    requires |tag| == 2
    ensures var bad := Tampered(head + tag);
            |bad| == |head| + 2 && bad[..|head|] == head && bad[|head|..] != tag
  {
    var bad := Tampered(head + tag);
    assert bad[..|head|] == head;
    assert bad[|head|..][1] != tag[1];
  }

  lemma TamperedFails(p: Primitives, s: Session, e: Side, d: Side, m: Msg)
    requires GoodPadding(p) && LockStep(e, d) && Packable(p, e, m) && |m.plain| > 0
    ensures var t := DecodeStep(p, s, d, Tampered(Frame(p, s, e, m.plain, m.rnd)));
            t.Stuck? && t.verdict == BadTag
  {
    var bad := Tampered(Frame(p, s, e, m.plain, m.rnd));
    assert |m.plain| + |m.rnd| < FRAME_LIMIT;
    var head := FrameHead(p, s, e, m.plain, m.rnd);
    TamperedTag(head, p.mac(MacKey(s, e.id), head)[..2]);
    assert bad[..2] == Frame(p, s, e, m.plain, m.rnd)[..2];
    assert Announced(p, d, bad[..2]).0 == |m.plain| && Announced(p, d, bad[..2]).1 == |m.rnd| by {
      HeaderRoundTrip(p, s, e, d, m.plain, m.rnd, bad);
    }
    hide GoodPadding, Frame, FrameHead, Tampered, Announced, CanPack;
    assert bad[..|m.plain| + |m.rnd| + 4] == bad;
  }

  /** The two frames, decoded in two calls and in one. */
  lemma {:induction false} GoodThenTampered(p: Primitives, s: Session, side: Side, m: Msg, m': Msg)
    requires GoodPadding(p) && Packable(p, side, m) && m.plain != []
    requires Packable(p, AfterPack(p, s, side, m.plain, m.rnd), m') && m'.plain != []
    ensures var step := Turns(p, s);
            var a := Frame(p, s, side, m.plain, m.rnd);
            var b := Tampered(Frame(p, s, AfterPack(p, s, side, m.plain, m.rnd), m'.plain, m'.rnd));
            var x := Decode(step, side, a);
            && x.frames == [m.plain] && x.rest == [] && x.verdict == More
            && Decode(step, x.state, b).verdict == BadTag && Decode(step, side, a + b).verdict == BadTag
  {
    var step := Turns(p, s);
    var a := Frame(p, s, side, m.plain, m.rnd);
    var side' := AfterPack(p, s, side, m.plain, m.rnd);
    var b := Tampered(Frame(p, s, side', m'.plain, m'.rnd));
    var d' := AfterFrame(p, s, side, m.plain, m.rnd, a);
    assert LockStep(side', d') by {
      AfterFrameLockStep(p, s, side, side, m.plain, m.rnd);
    }
    assert step(side, a) == Got(m.plain, |a|, d') && step(side, a + b) == Got(m.plain, |a|, d') by {
      FrameRoundTrip(p, s, side, side, m.plain, m.rnd, []);
      FrameRoundTrip(p, s, side, side, m.plain, m.rnd, b);
      assert a + [] == a;
    }
    TamperedFails(p, s, side', d', m');
    hide Frame, Tampered, AfterPack, AfterFrame, DecodeStep, GoodPadding, Packable;
    assert a[|a|..] == [] && (a + b)[|a|..] == b;
    assert step(d', []) == Stuck(More, d') by {
      TurnWaits(p, s, d');
    }
    assert Decode(step, d', []) == Decoded([], d', [], More);
  }

  lemma TurnWaits(p: Primitives, s: Session, d: Side)
    ensures Turns(p, s)(d, []) == Stuck(More, d)
  {
  }

  /** For all keys, digests and primitives: a good frame followed by one with a wrong tag comes out if the input is cut
      between the two, and is lost if both arrive together. */
  lemma CutShows(cfg: Config, e: ServerEnd, now: U32, m: Msg, m': Msg)
    requires GoodPadding(cfg.p) && !e.raw && e.greeted && e.session.Some? && e.buf == []
    requires Packable(cfg.p, e.incoming, m) && m.plain != []
    requires Packable(cfg.p, AfterPack(cfg.p, e.session.value, e.incoming, m.plain, m.rnd), m') && m'.plain != []
    ensures var s, side := e.session.value, e.incoming;
            var a := Frame(cfg.p, s, side, m.plain, m.rnd);
            var b := Tampered(Frame(cfg.p, s, AfterPack(cfg.p, s, side, m.plain, m.rnd), m'.plain, m'.rnd));
            var (e1, r1) := ServerCall(cfg, e, Call(a, now, true));
            && Delivered(r1) == m.plain
            && Delivered(ServerCall(cfg, e1, Call(b, now, true)).1) == []
            && Delivered(ServerCall(cfg, e, Call(a + b, now, true)).1) == []
  {
    var s, side := e.session.value, e.incoming;
    var a := Frame(cfg.p, s, side, m.plain, m.rnd);
    var b := Tampered(Frame(cfg.p, s, AfterPack(cfg.p, s, side, m.plain, m.rnd), m'.plain, m'.rnd));
    GoodThenTampered(cfg.p, s, side, m, m');
    hide GoodPadding, Frame, Tampered, AfterPack, Packable, Turns, Decode;
    OneThenBad(cfg, e, now, m.plain, a, b);
  }

  lemma {:induction false} OneThenBad(cfg: Config, e: ServerEnd, now: U32, plain: Bytes, a: Bytes, b: Bytes)
    requires !e.raw && e.greeted && e.session.Some? && e.buf == []
    requires var step := Turns(cfg.p, e.session.value);
             var x := Decode(step, e.incoming, a);
             && x.frames == [plain] && x.rest == [] && x.verdict == More
             && Decode(step, x.state, b).verdict != More && Decode(step, e.incoming, a + b).verdict != More
    ensures var (e1, r1) := ServerCall(cfg, e, Call(a, now, true));
            && ServerSane(e1)
            && Delivered(r1) == plain
            && Delivered(ServerCall(cfg, e1, Call(b, now, true)).1) == []
            && Delivered(ServerCall(cfg, e, Call(a + b, now, true)).1) == []
  {
    hide Turns, Decode, Flatten;
    FlattenOne(plain);
    assert [] + a == a && [] + (a + b) == a + b && [] + b == b;
  }
}
