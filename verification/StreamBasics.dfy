/**
 * What the stream protocols share: how a write is cut into payloads and packed, how far a receive loop
 * has come, clocks and address headers.
 */
module StreamBasics {
  import opened ByteStrings
  import opened FrameLoop
  import opened Options

  /** The user part of the protocol parameter, "uid:key"; the uid may fail to parse. */
  datatype UserParam = UserParam(uid: Option<U32>, key: Bytes)

  /** How a buffer is cut into payloads: full units, then a last piece that may be empty. */
  function Split(unit: nat, buf: Bytes): (r: seq<Bytes>)
    requires unit > 0
    decreases |buf|
  {
    if |buf| > unit then [buf[..unit]] + Split(unit, buf[unit..]) else [buf]
  }

  /** Cutting loses nothing, and no piece is longer than the unit. */
  lemma {:induction false} SplitFlatten(unit: nat, buf: Bytes)
    requires unit > 0
    ensures Flatten(Split(unit, buf)) == buf
    ensures Split(unit, buf) != []
    ensures forall i :: 0 <= i < |Split(unit, buf)| ==> |Split(unit, buf)[i]| <= unit
    ensures |Split(unit, buf)[0]| == if |buf| > unit then unit else |buf|
    decreases |buf|
  {
    if |buf| > unit {
      SplitFlatten(unit, buf[unit..]);
      assert buf == buf[..unit] + buf[unit..];
    }
  }

  ghost predicate CutSoFar(unit: nat, msgs: seq<Msg>, buf: Bytes, buffer: Bytes)
    requires unit > 0
  {
    Texts(msgs) + Split(unit, buf) == Split(unit, buffer)
  }

  lemma CutOneMore(unit: nat, msgs: seq<Msg>, buf: Bytes, buffer: Bytes, m: Msg)
    requires unit > 0 && |buf| > unit && CutSoFar(unit, msgs, buf, buffer) && m.plain == buf[..unit]
    ensures CutSoFar(unit, msgs + [m], buf[unit..], buffer)
  {
    assert Texts(msgs + [m]) == Texts(msgs) + [m.plain];
    assert Texts(msgs) + ([m.plain] + Split(unit, buf[unit..])) == (Texts(msgs) + [m.plain]) + Split(unit, buf[unit..]);
  }

  lemma {:induction false} CutLast(unit: nat, msgs: seq<Msg>, buf: Bytes, buffer: Bytes, m: Msg)
    requires unit > 0 && |buf| <= unit && CutSoFar(unit, msgs, buf, buffer) && m.plain == buf
    ensures Texts(msgs + [m]) == Split(unit, buffer)
  {
    assert Texts(msgs + [m]) == Texts(msgs) + [m.plain];
  }

  /** The run of an encoder so far: its messages, its bytes and its state. */
  ghost predicate PackedSoFar<E, D>(c: Codec<E, D>, start: E, msgs: seq<Msg>, out: Bytes, now: E) {
    CanPackAll(c, start, msgs) && out == Sent(c, start, msgs) && now == AfterAll(c, start, msgs)
  }

  lemma PackedMore<E, D>(c: Codec<E, D>, start: E, msgs: seq<Msg>, out: Bytes, now: E, more: seq<Msg>, rest: Bytes,
                         now': E)
    requires PackedSoFar(c, start, msgs, out, now) && PackedSoFar(c, now, more, rest, now')
    ensures PackedSoFar(c, start, msgs + more, out + rest, now')
  {
    RunAppend(c, start, msgs, more);
    SentAppend(c, start, msgs, more);
  }

  /** The receive loop after the payloads done: what is left to decode decides the rest. */
  ghost predicate LoopSoFar<S>(step: Stepper<S>, whole: Decoded<S>, done: seq<Bytes>, s: S, buf: Bytes, out: Bytes) {
    && whole == Decode(step, s, buf).(frames := done + Decode(step, s, buf).frames)
    && out == Flatten(done)
  }

  lemma LoopOneMore<S>(step: Stepper<S>, whole: Decoded<S>, done: seq<Bytes>, s: S, buf: Bytes, out: Bytes)
    requires LoopSoFar(step, whole, done, s, buf, out)
    requires step(s, buf).Got? && 0 < step(s, buf).size <= |buf|
    ensures var t := step(s, buf);
            LoopSoFar(step, whole, done + [t.plain], t.state, buf[t.size..], out + t.plain)
  {
    var t := step(s, buf);
    var rest := Decode(step, t.state, buf[t.size..]).frames;
    assert done + ([t.plain] + rest) == (done + [t.plain]) + rest;
    FlattenAppend(done, [t.plain]);
    FlattenOne(t.plain);
  }

  /** What a decode call returns: data, with the request for an empty packet in return;
      an exception; or the 2048 letters E that stand for "not this protocol". */
  datatype Reply = Data(out: Bytes, sendback: bool) | Raised | Rejected

  /** The bytes that a reply hands over. */
  function Delivered(r: Reply): Bytes {
    if r.Data? then r.out else []
  }

  /** The reply to a whole asks for a packet in return exactly if the reply to one of its halves does. */
  predicate SameRequest(a: Reply, b: Reply, whole: Reply) {
    a.Data? && b.Data? && whole.Data? && (whole.sendback <==> a.sendback || b.sendback)
  }

  /** All the bytes that a run of calls hands over. */
  function Output(replies: seq<Reply>): Bytes {
    if replies == [] then [] else Output(replies[..|replies| - 1]) + Delivered(replies[|replies| - 1])
  }

  lemma {:induction false} OutputOneMore(replies: seq<Reply>, r: Reply)
    ensures Output(replies + [r]) == Output(replies) + Delivered(r)
  {
    assert (replies + [r])[..|replies|] == replies;
  }

  /** A call: its bytes, the clock, and whether the table of clients admits the connection id, should it be asked. */
  datatype Call = Call(chunk: Bytes, now: U32, admitted: bool)

  /** The bytes of the calls so far. */
  function Received(calls: seq<Call>): Bytes {
    if calls == [] then [] else Received(calls[..|calls| - 1]) + calls[|calls| - 1].chunk
  }

  /** No call has raised or refused. */
  predicate AllData(replies: seq<Reply>) {
    forall i :: 0 <= i < |replies| ==> replies[i].Data?
  }

  /** The bytes that a receive loop hands over: a failure throws away what the same call has decoded before. */
  function Handed<S>(r: Decoded<S>): Bytes {
    if r.verdict == More then Flatten(r.frames) else []
  }

  /** Cutting the input after x loses nothing, and gains nothing, against the whole: the whole does not fail, or no
      payload byte comes before the failure. When x itself fails, what follows is passed through as it is, so there
      must be nothing. */
  predicate LosesNothing<S>(x: Decoded<S>, whole: Decoded<S>, b: Bytes) {
    whole.verdict == More || (if x.verdict == More then Flatten(x.frames) == [] else b == [])
  }

  lemma {:induction false} HandedChunks<S(!new)>(step: Stepper<S>, s: S, a: Bytes, b: Bytes)
    requires Settled(step) && Restartable(step) && Progress(step)
    ensures var x, whole := Decode(step, s, a), Decode(step, s, a + b);
            if x.verdict == More then
              var y := Decode(step, x.state, x.rest + b);
              && y.(frames := []) == whole.(frames := [])
              && (Handed(x) + Handed(y) == Handed(whole) <==> LosesNothing(x, whole, b))
            else
              whole.state == x.state && whole.verdict == x.verdict
  {
    hide Decode, Flatten;
    DecodeChunks(step, s, a, b);
    var x := Decode(step, s, a);
    if x.verdict == More {
      FlattenAppend(x.frames, Decode(step, x.state, x.rest + b).frames);
    }
  }

  /** A first payload and then the rest of the buffer, cut. */
  lemma {:induction false} TextsJoin(unit: nat, m: Msg, more: seq<Msg>, buffer: Bytes, k: nat)
    requires unit > 0 && k <= |buffer| && m.plain == buffer[..k] && Texts(more) == Split(unit, buffer[k..])
    ensures Flatten(Texts([m] + more)) == buffer
  {
    assert Texts([m] + more) == [m.plain] + Texts(more);
    SplitFlatten(unit, buffer[k..]);
    assert buffer[..k] + buffer[k..] == buffer;
  }

  lemma DropPrefix(a: Bytes, b: Bytes, n: nat)
    requires n <= |a|
    ensures (a + b)[..n] == a[..n] && (a + b)[n..] == a[n..] + b
  {
  }

  /** Random bytes from the operating system. */
  method URandom(n: nat) returns (b: Bytes)
    ensures |b| == n
  {
    assert |Zeros(n)| == n;
    b :| |b| == n;
  }

  const MAX_TIME_DIF := 86400

  predicate TimeAccepted(utc: U32, now: U32) {
    -MAX_TIME_DIF <= Int32(utc - now) <= MAX_TIME_DIF
  }

  /** The times that a server accepts: a day before and after its own, around the end of the 32-bit clock. */
  lemma AcceptedTimes(utc: U32, now: U32)
    ensures TimeAccepted(utc, now) <==> (utc - now) % 0x1_0000_0000 <= 86400 || (now - utc) % 0x1_0000_0000 <= 86400
  {
  }

  /** The size of the address header that a first write starts with, guessed from its first bytes. */
  function HeadSize(buf: Bytes, def: nat): nat {
    if |buf| < 2 then def
    else if buf[0] % 8 == 1 then 7
    else if buf[0] % 8 == 4 then 19
    else if buf[0] % 8 == 3 then 4 + buf[1]
    else def
  }

  /** An address header: a type byte, an IPv4 or IPv6 address or a host name with its length, and a port. */
  lemma HeadSizes(buf: Bytes, def: nat)
    requires |buf| >= 2
    ensures buf[0] % 8 == 1 ==> HeadSize(buf, def) == 1 + 4 + 2
    ensures buf[0] % 8 == 4 ==> HeadSize(buf, def) == 1 + 16 + 2
    ensures buf[0] % 8 == 3 ==> HeadSize(buf, def) == 1 + 1 + buf[1] as int + 2
    ensures buf[0] % 8 !in {1, 3, 4} ==> HeadSize(buf, def) == def
  {
  }

  lemma NoHead(buf: Bytes, def: nat)
    requires |buf| < 2
    ensures HeadSize(buf, def) == def
  {
  }

  // ----- a greeting, and what follows it on the wire -----

  lemma GreetingGrows(hello: Bytes, seen: nat, inFlight: Bytes, wire: Bytes, n: nat)
    requires seen + n < |hello| && wire == hello[seen..] + inFlight
    ensures hello[..seen] + wire[..n] == hello[..seen + n] && wire[n..] == hello[seen + n..] + inFlight
  {
  }

  lemma GreetingComplete(hello: Bytes, seen: nat, inFlight: Bytes, wire: Bytes, n: nat)
    requires seen <= |hello| <= seen + n && wire == hello[seen..] + inFlight && n <= |wire|
    ensures var m := seen + n - |hello|;
            m <= |inFlight| && hello[..seen] + wire[..n] == hello + inFlight[..m] && wire[n..] == inFlight[m..]
  {
  }

  lemma BehindGreeting(hello: Bytes, rest: Bytes)
    ensures (hello + rest)[|hello|..] == rest
  {
  }

  /** Bytes in flight, handed over, and written, for each direction. */
  datatype Traffic = Traffic(toServer: Bytes, atServer: Bytes, byClient: Bytes, toClient: Bytes, atClient: Bytes,
                             byServer: Bytes)
}
