/**
 * The receiving ends of an auth_sha1_v4 or auth_aes128 connection as values: what each call of server_post_decrypt and
 * client_post_decrypt does to the fields of its object and what it returns. The methods of AuthStream.dfy are proved
 * equal to ServerCall and ClientCall.
 */
module AuthEnds {
  import opened AuthFrames
  import opened AuthGreeting
  import opened ByteStrings
  import opened FrameLoop
  import opened Options
  import opened ReplayWindow
  import opened StreamBasics
  import opened UserTables

  /** The two protocols, with what one end is configured with. */
  datatype Protocol =
    | AuthSha1V4(sha1: Sha1, adler32: Bytes -> U32)
    | AuthAes128(aes: Aes, users: map<Uid, Bytes>, extra: nat, param: Option<UserParam>)

  /** The frame format under the key that the greeting has fixed. */
  function FormatOf(p: Protocol, key: Bytes): Format {
    match p
    case AuthSha1V4(sha1, adler32) => Sha1V4(sha1.crc32, adler32)
    case AuthAes128(aes, _, _, _) => Aes128(aes.mac, key)
  }

  function JudgeOf(p: Protocol, now: U32, admitted: bool): Bytes -> Judgement {
    match p
    case AuthSha1V4(sha1, _) => Sha1Judge(sha1, now, admitted)
    case AuthAes128(aes, users, extra, _) => AesJudge(aes, users, extra, now, admitted)
  }

  /** The key a client signs with. */
  function ClientKey(p: Protocol): Bytes {
    match p
    case AuthSha1V4(_, _) => []
    case AuthAes128(aes, _, _, param) => if param.Some? then aes.hash(param.value.key) else aes.key
  }

  /** The key an end has before any greeting. */
  function StartKey(p: Protocol): Option<Bytes> {
    if p.AuthSha1V4? then Some([]) else None
  }

  /** What one end holds: whether it passes bytes through, whether it has taken a greeting, the key, the number of the
      next frame, the bytes not used yet, and how many calls have output something (auth_sha1_v4). */
  datatype End = End(raw: bool, greeted: bool, key: Option<Bytes>, id: U32, buf: Bytes, count: nat)

  function Fresh(p: Protocol): End {
    End(false, false, StartKey(p), 1, [], 0)
  }

  function Counted(p: Protocol, out: Bytes, count: nat): nat {
    if out != [] && p.AuthSha1V4? then count + 1 else count
  }

  // ----- the server -----

  /** The key a server knows after looking at these bytes of a greeting: that of the user, once the second check
      holds. */
  function KeyAfter(p: Protocol, buf: Bytes, key: Option<Bytes>): Option<Bytes> {
    match p
    case AuthSha1V4(_, _) => key
    case AuthAes128(aes, users, _, _) =>
      if !HeadFails(aes, buf) && |buf| >= 31 && aes.mac(aes.iv + aes.key, buf[7..27])[..4] == buf[27..31]
      then Some(LookupKey(aes, users, buf[7..11]))
      else key
  }

  /** The receive loop behind the payload first of a greeting. A failure ends the protocol; it throws the rest away,
      unless it is the check of a length. */
  function ServerDecodes(p: Protocol, f: Format, e: End, received: Bytes, first: Bytes, asked: bool): (End, Reply) {
    var r := Decode(Turns(f), Inbound(e.id, asked), received);
    if r.verdict == More then
      var out := first + Flatten(r.frames);
      (e.(id := r.state.id, buf := r.rest, count := Counted(p, out, e.count)), Data(out, r.state.asked))
    else
      (e.(raw := true, id := r.state.id, buf := if r.verdict == BadHead then r.rest else []),
       if (if p.AuthSha1V4? then e.count else r.state.id) == 0 then Rejected else Raised)
  }

  predicate Sane(e: End) {
    e.greeted ==> e.key.Some?
  }

  /** compatible says that a stream of another protocol is passed on. */
  function ServerCall(p: Protocol, compatible: bool, e: End, c: Call): (r: (End, Reply))
    requires Sane(e)
    ensures Sane(r.0)
  {
    if e.raw then (e, Data(c.chunk, false))
    else
      var received := e.buf + c.chunk;
      if e.greeted then ServerDecodes(p, FormatOf(p, e.key.value), e, received, [], false)
      else
        var e' := e.(buf := received, key := KeyAfter(p, received, e.key));
        match JudgeOf(p, c.now, c.admitted)(received)
        case Wait => (e', Data([], false))
        case Broken => (e', Raised)
        case NoMatch => (e'.(raw := true), if compatible then Data(received, false) else Rejected)
        case Greeted(key, first, size) =>
          ServerDecodes(p, FormatOf(p, key), e.(greeted := true, key := Some(key)), Slice(received, size, |received|),
                        first, true)
  }

  // ----- the server with its table of clients -----

  /** Nobody yet. */
  const NOBODY: Caller<Uid> := Caller(None, 0)

  /** The user a server knows after looking at these bytes of a greeting. */
  function UserNamed(p: Protocol, buf: Bytes, user: Option<Uid>): Option<Uid> {
    match p
    case AuthSha1V4(_, _) => user
    case AuthAes128(aes, users, _, _) =>
      if !HeadFails(aes, buf) && |buf| >= 31 && aes.mac(aes.iv + aes.key, buf[7..27])[..4] == buf[27..31]
         && AesUid(buf) in users
      then Some(AesUid(buf))
      else user
  }

  /** A server of auth_aes128 knows the user from 31 bytes on, when both tags fit and it has that user. */
  lemma NamedWhen(aes: Aes, users: map<Uid, Bytes>, extra: nat, param: Option<UserParam>, buf: Bytes, u: Uid)
    ensures UserNamed(AuthAes128(aes, users, extra, param), buf, None) == Some(u)
       <==> |buf| >= 31 && aes.mac(aes.iv + aes.key, buf[..1])[..6] == buf[1..7]
            && aes.mac(aes.iv + aes.key, buf[7..27])[..4] == buf[27..31] && buf[7..11] == u && u in users
  {
  }

  /** The card in a greeting that is good but for its ids. */
  function CardOf(p: Protocol, now: U32, buf: Bytes): Option<Card> {
    if !JudgeOf(p, now, true)(buf).Greeted? then None
    else
      match p
      case AuthSha1V4(sha1, _) => Some(Sha1Card(sha1, now, buf))
      case AuthAes128(aes, users, _, _) => Some(AesCard(aes, users, buf))
  }

  function IdsOf(card: Option<Card>): Option<Ids> {
    match card
    case None => None
    case Some(c) => Some(Ids(c.clientId, c.connectionId))
  }

  /** server_post_decrypt with the tables of clients. They are asked about a greeting that is good in all else, and told
      of the data that comes. */
  function GuardedCall(p: Protocol, compatible: bool, max: int, e: End, who: Caller<Uid>, us: Tables<Option<Uid>>,
                       chunk: Bytes, now: U32, clock: real): Outcome<End, Uid>
    requires Sane(e)
  {
    if e.raw then Outcome(e, who, us, Data(chunk, false))
    else
      var received := e.buf + chunk;
      var a := if e.greeted then Answer(true, who, us)
               else Asked(Idle, max, us, who.(user := UserNamed(p, received, who.user)),
                          IdsOf(CardOf(p, now, received)), clock);
      var (e', reply) := ServerCall(p, compatible, e, Call(chunk, now, a.admitted));
      Outcome(e', a.who, if e'.greeted then Refreshed(a.tables, a.who, reply, clock) else a.tables, reply)
  }

  /** Without a good greeting the answer of the tables does not matter. */
  lemma NotAsked(p: Protocol, compatible: bool, e: End, chunk: Bytes, now: U32, admitted: bool)
    requires Sane(e) && (e.raw || e.greeted || CardOf(p, now, e.buf + chunk) == None)
    ensures ServerCall(p, compatible, e, Call(chunk, now, admitted))
         == ServerCall(p, compatible, e, Call(chunk, now, true))
  {
    hide KeyAfter, FormatOf, Slice, Sha1Start, Sha1Card, AesCard, Sha1Head, TimeAccepted, LookupKey, Password;
  }

  /** A greeting is taken if it is good, and then its card is known. */
  lemma GreetedWithCard(p: Protocol, compatible: bool, e: End, chunk: Bytes, now: U32)
    requires !e.raw && !e.greeted
    ensures ServerCall(p, compatible, e, Call(chunk, now, true)).0.greeted <==> CardOf(p, now, e.buf + chunk).Some?
  {
    hide JudgeOf, KeyAfter, FormatOf, Slice, Sha1Card, AesCard, Turns, Decode;
  }

  lemma StaysGreeted(p: Protocol, compatible: bool, e: End, c: Call)
    requires Sane(e) && e.greeted
    ensures ServerCall(p, compatible, e, c).0.greeted
  {
  }

  // ----- the client -----

  /** The receive loop of a client. A wrong check of a length raises and leaves the rest where it is; other failures
      end the protocol. */
  function ClientDecodes(p: Protocol, f: Format, e: End, received: Bytes): (End, Reply) {
    var r := Decode(Turns(f), Inbound(e.id, false), received);
    var out := Flatten(r.frames);
    match r.verdict
    case More => (e.(id := r.state.id, buf := r.rest, count := Counted(p, out, e.count)), Data(out, false))
    case BadHead => (e.(id := r.state.id, buf := r.rest), Raised)
    case _ => (e.(raw := true, id := r.state.id, buf := []), Raised)
  }

  /** Before its first write an auth_aes128 client has no key, and raises as soon as a frame could begin. */
  function ClientCall(p: Protocol, e: End, chunk: Bytes): (End, Reply) {
    if e.raw then (e, Data(chunk, false))
    else
      var received := e.buf + chunk;
      if e.key == None then (e.(buf := received), if |received| > 4 then Raised else Data([], false))
      else ClientDecodes(p, FormatOf(p, e.key.value), e, received)
  }

  // ----- chunk boundaries, as a caller sees them -----

  /** Whether an empty frame has asked for an answer before makes no difference to what is decoded; and it is not
      forgotten. */
  lemma {:induction false} AskedAside(f: Format, id: U32, asked: bool, asked': bool, buf: Bytes)
    ensures var r, r' := Decode(Turns(f), Inbound(id, asked), buf), Decode(Turns(f), Inbound(id, asked'), buf);
            && r.frames == r'.frames && r.rest == r'.rest && r.verdict == r'.verdict && r.state.id == r'.state.id
            && (asked == asked' ==> r == r') && (asked ==> r.state.asked) && (asked' ==> r'.state.asked)
            && (!asked' ==> r.state.asked == (asked || r'.state.asked))
    decreases |buf|
  {
    hide PayloadStart;
    var t, t' := DecodeStep(f, Inbound(id, asked), buf), DecodeStep(f, Inbound(id, asked'), buf);
    if t.Got? {
      AskedAside(f, t.state.id, t.state.asked, t'.state.asked, buf[t.size..]);
    }
  }

  /** The same to a caller: all but the count, and what a dead end has left in its buffer. */
  predicate Alike(e: End, e': End) {
    e.(count := 0, buf := if e.raw then [] else e.buf) == e'.(count := 0, buf := if e'.raw then [] else e'.buf)
  }

  /** Two calls of the receive loop and one, and what they have in common. */
  lemma {:induction false} LoopChunks(f: Format, id: U32, a: Bytes, b: Bytes)
    ensures var step := Turns(f);
            var x, whole := Decode(step, Inbound(id, false), a), Decode(step, Inbound(id, false), a + b);
            if x.verdict == More then
              var y := Decode(step, Inbound(x.state.id, false), x.rest + b);
              && y.rest == whole.rest && y.verdict == whole.verdict && y.state.id == whole.state.id
              && whole.state.asked == (x.state.asked || y.state.asked)
              && Flatten(x.frames) + Flatten(y.frames) == Flatten(whole.frames)
            else whole == x.(rest := x.rest + b)
  {
    hide Decode, Turns, Flatten;
    TurnsRegular(f);
    var x := Decode(Turns(f), Inbound(id, false), a);
    DecodeChunks(Turns(f), Inbound(id, false), a, b);
    if x.verdict == More {
      FlattenAppend(x.frames, Decode(Turns(f), x.state, x.rest + b).frames);
      AskedAside(f, x.state.id, x.state.asked, false, x.rest + b);
    }
  }

  lemma {:induction false} DecodesChunks(p: Protocol, f: Format, e: End, a: Bytes, b: Bytes)
    requires !e.raw
    ensures var (e1, r1) := ServerDecodes(p, f, e, e.buf + a, [], false);
            var (e2, r2) := if e1.raw then (e1, Data(b, false)) else ServerDecodes(p, f, e1, e1.buf + b, [], false);
            var (e3, r3) := ServerDecodes(p, f, e, (e.buf + a) + b, [], false);
            var step, d := Turns(f), Inbound(e.id, false);
            && Alike(e2, e3) && (!e3.raw ==> (e2.count == 0 <==> e3.count == 0) && SameRequest(r1, r2, r3))
            && (Delivered(r1) + Delivered(r2) == Delivered(r3)
                <==> LosesNothing(Decode(step, d, e.buf + a), Decode(step, d, (e.buf + a) + b), b))
  {
    hide Turns, Decode, Flatten;
    LoopChunks(f, e.id, e.buf + a, b);
    assert forall x: Bytes {:trigger [] + x} :: [] + x == x;
  }

  /** Chunk boundaries, for a server that has taken a greeting: what follows from feeding a + b at once is what
      follows from feeding a and then b. Only the bytes handed over can differ: exactly when a failure takes payload
      with it. A packet in return is asked for by one of the two calls if the whole call, unless it fails, asks for
      it. */
  lemma ServerCallChunks(p: Protocol, compatible: bool, e: End, a: Call, b: Call, whole: Call)
    requires !e.raw && e.greeted && Sane(e) && whole.chunk == a.chunk + b.chunk
    ensures var (e1, r1) := ServerCall(p, compatible, e, a);
            var (e2, r2) := ServerCall(p, compatible, e1, b);
            var (e3, r3) := ServerCall(p, compatible, e, whole);
            var step, d := Turns(FormatOf(p, e.key.value)), Inbound(e.id, false);
            && Alike(e2, e3) && (!e3.raw ==> (e2.count == 0 <==> e3.count == 0) && SameRequest(r1, r2, r3))
            && (Delivered(r1) + Delivered(r2) == Delivered(r3)
                <==> LosesNothing(Decode(step, d, e.buf + a.chunk), Decode(step, d, e.buf + whole.chunk), b.chunk))
  {
    hide Turns, Decode, Flatten, FormatOf, KeyAfter, JudgeOf;
    assert e.buf + whole.chunk == (e.buf + a.chunk) + b.chunk;
    LoopChunks(FormatOf(p, e.key.value), e.id, e.buf + a.chunk, b.chunk);
    DecodesChunks(p, FormatOf(p, e.key.value), e, a.chunk, b.chunk);
  }

  /** The same for a client that has a key. A wrong check of a length is met again, with nothing to lose. */
  lemma {:induction false} ClientCallChunks(p: Protocol, e: End, a: Bytes, b: Bytes)
    requires !e.raw && e.key.Some?
    ensures var (e1, r1) := ClientCall(p, e, a);
            var (e2, r2) := ClientCall(p, e1, b);
            var (e3, r3) := ClientCall(p, e, a + b);
            var step, d := Turns(FormatOf(p, e.key.value)), Inbound(e.id, false);
            var x := Decode(step, d, e.buf + a);
            && Alike(e2, e3) && (!e3.raw && r3.Data? ==> (e2.count == 0 <==> e3.count == 0))
            && (Delivered(r1) + Delivered(r2) == Delivered(r3)
                <==> LosesNothing(x, Decode(step, d, e.buf + (a + b)), b) || x.verdict == BadHead)
  {
    hide Turns, Decode, Flatten, FormatOf;
    var f := FormatOf(p, e.key.value);
    assert e.buf + (a + b) == (e.buf + a) + b;
    LoopChunks(f, e.id, e.buf + a, b);
    assert [] + b == b;
    var x := Decode(Turns(f), Inbound(e.id, false), e.buf + a);
    if x.verdict == BadHead {
      HeadStaysBad(f, e.id, e.buf + a, b);
    }
  }

  /** A loop that stopped at a wrong check of a length stops there again. */
  lemma {:induction false} HeadStaysBad(f: Format, id: U32, a: Bytes, b: Bytes)
    requires Decode(Turns(f), Inbound(id, false), a).verdict == BadHead
    ensures var x := Decode(Turns(f), Inbound(id, false), a);
            var y := Decode(Turns(f), Inbound(x.state.id, false), x.rest + b);
            y.verdict == BadHead && y.frames == [] && y.rest == x.rest + b && y.state.id == x.state.id
  {
    LastHead(f, Inbound(id, false), a);
    var x := Decode(Turns(f), Inbound(id, false), a);
    assert (x.rest + b)[..2] == x.rest[..2] && (x.rest + b)[2..4] == x.rest[2..4];
    hide PayloadStart, OpenFrame;
    assert DecodeStep(f, Inbound(x.state.id, false), x.rest + b) == Stuck(BadHead, Inbound(x.state.id, false));
  }

  lemma {:induction false} LastHead(f: Format, d: Inbound, a: Bytes)
    requires Decode(Turns(f), d, a).verdict == BadHead
    ensures var x := Decode(Turns(f), d, a);
            |x.rest| > 4 && f.headTag(x.state.id, x.rest[..2]) != x.rest[2..4]
    decreases |a|
  {
    hide PayloadStart;
    var t := DecodeStep(f, d, a);
    if t.Got? {
      LastHead(f, t.state, a[t.size..]);
    }
  }
}
