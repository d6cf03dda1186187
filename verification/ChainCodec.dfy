/**
 * The auth_chain frame format, as functions on values. Both ends keep, per
 * direction, the digest of the previous frame, a 32-bit frame number and an
 * offset into the RC4 key stream; every frame is packed from these and chains
 * into the next. The state-changing encoder and decoder are in AuthChain.dfy.
 */
module ChainCodec {
  import opened ByteStrings
  import opened FrameLoop
  import opened KeystreamCipher
  import opened Xorshift

  type Digest = d: Bytes | |d| == 16 witness seq(16, _ => 0)

  /** What the protocol takes from elsewhere: HMAC, RC4, AES on one block,
      base64, and the padding rule, which is the method that the variants
      b, c and d override. */
  datatype Primitives = Primitives(
    mac: (Bytes, Bytes) -> Digest,
    rc4: Bytes -> Keystream,
    aesEncrypt: (Bytes, Digest) -> Digest,
    aesDecrypt: (Bytes, Digest) -> Digest,
    base64: Bytes -> Bytes,
    padLen: (U16, Digest, Rng) -> (nat, Rng),
    startPos: (nat, Rng) -> (nat, Rng))

  const UNSEEDED := Rng(0, 0)

  /** What the padding rule has to meet (PaddingTables.dfy proves it for all four variants):
      its length depends on the length and digest alone; so does the generator it leaves behind
      whenever there is padding at all; asking twice is asking once; a payload that an
      encoder can send fits the decoder's limit; and the start position lies in the padding. */
  ghost predicate GoodPadding(p: Primitives) {
    && (forall n: U16, h, r {:trigger p.padLen(n, h, r)} :: p.padLen(n, h, r).0 == p.padLen(n, h, UNSEEDED).0)
    && (forall n: U16, h, r {:trigger p.padLen(n, h, r)} ::
          p.padLen(n, h, r).0 > 0 ==> p.padLen(n, h, r) == p.padLen(n, h, UNSEEDED))
    && (forall n: U16, h, r {:trigger p.padLen(n, h, p.padLen(n, h, r).1)} ::
          p.padLen(n, h, p.padLen(n, h, r).1) == p.padLen(n, h, r))
    && (forall n: U16, h :: n <= MAX_PAYLOAD ==> (n as int) + p.padLen(n, h, UNSEEDED).0 < FRAME_LIMIT)
    && (forall n: nat, r {:trigger p.startPos(n, r)} :: 0 < n ==> p.startPos(n, r).0 < n)
  }

  const MAX_PAYLOAD := 2800
  const FRAME_LIMIT := 4096

  /** Keys fixed by the handshake. */
  datatype Session = Session(userKey: Bytes, cipherKey: Bytes)

  /** One direction, as one end sees it. */
  datatype Side = Side(hash: Digest, id: U32, offset: nat, rng: Rng)

  function Mask(h: Digest): U16 {
    UnLe16(h[14..16])
  }

  function MacKey(s: Session, id: U32): Bytes {
    s.userKey + Le32(id)
  }

  // ----- one frame -----

  /** Padding with the payload spliced in, and the generator afterwards. */
  function Body(p: Primitives, text: Bytes, rnd: Bytes, rng: Rng): (r: (Bytes, Rng))
    ensures |r.0| == |text| + |rnd|
  {
    if text == [] then (rnd, rng)
    else if |rnd| > 0 then
      var (start, rng') := p.startPos(|rnd|, rng);
      var pos := Min(start, |rnd|);
      (rnd[..pos] + text + rnd[pos..], rng')
    else (text, rng)
  }

  predicate CanPack(p: Primitives, d: Side, plain: Bytes, rnd: Bytes) {
    |plain| < 0x1_0000 && |rnd| == p.padLen(|plain|, d.hash, d.rng).0
  }

  /** A frame without its two-byte tag: masked length, then the body. */
  function FrameHead(p: Primitives, s: Session, d: Side, plain: Bytes, rnd: Bytes): (b: Bytes)
    requires CanPack(p, d, plain, rnd)
    ensures |b| == 2 + |plain| + |rnd|
  {
    var text := ApplyKeystream(p.rc4(s.cipherKey), d.offset, plain);
    Le16(Xor16(|plain|, Mask(d.hash))) + Body(p, text, rnd, p.padLen(|plain|, d.hash, d.rng).1).0
  }

  function Frame(p: Primitives, s: Session, d: Side, plain: Bytes, rnd: Bytes): (b: Bytes)
    requires CanPack(p, d, plain, rnd)
    ensures |b| == 4 + |plain| + |rnd|
  {
    var head := FrameHead(p, s, d, plain, rnd);
    head + p.mac(MacKey(s, d.id), head)[..2]
  }

  function AfterPack(p: Primitives, s: Session, d: Side, plain: Bytes, rnd: Bytes): Side
    requires CanPack(p, d, plain, rnd)
  {
    var text := ApplyKeystream(p.rc4(s.cipherKey), d.offset, plain);
    Side(p.mac(MacKey(s, d.id), FrameHead(p, s, d, plain, rnd)),
         Succ32(d.id),
         d.offset + |plain|,
         Body(p, text, rnd, p.padLen(|plain|, d.hash, d.rng).1).1)
  }

  /** The payload length and padding size that the first two bytes announce, and the generator then. */
  function Announced(p: Primitives, d: Side, head: Bytes): (r: (nat, nat, Rng))
    requires |head| == 2
  {
    var n := Xor16(UnLe16(head), Mask(d.hash));
    var (pad, rng) := p.padLen(n, d.hash, d.rng);
    (n, pad, rng)
  }

  /** Checking and opening one complete frame, with the generator as reading its length left it. */
  function OpenFrame(p: Primitives, s: Session, d: Side, n: nat, pad: nat, frame: Bytes): (r: Turn<Side>)
    requires |frame| == n + pad + 4
    ensures r.Got? ==> r.size == |frame|
    ensures r.Stuck? ==> r.verdict == BadTag
  {
    var h := p.mac(MacKey(s, d.id), frame[..n + pad + 2]);
    if h[..2] != frame[n + pad + 2..] then Stuck(BadTag, d)
    else
      var (start, rng') := if n > 0 && pad > 0 then p.startPos(pad, d.rng) else (0, d.rng);
      var pos := 2 + Min(start, pad);
      Got(ApplyKeystream(p.rc4(s.cipherKey), d.offset, frame[pos..pos + n]),
          |frame|,
          Side(h, Succ32(d.id), d.offset + n, rng'))
  }

  /** One turn of the decoder's loop. */
  function DecodeStep(p: Primitives, s: Session, d: Side, buf: Bytes): (r: Turn<Side>)
    ensures r.Got? ==> 4 <= r.size <= |buf|
  {
    if |buf| <= 4 then Stuck(More, d)
    else
      var (n, pad, rng) := Announced(p, d, buf[..2]);
      if n + pad >= FRAME_LIMIT then Stuck(BadLength, d.(rng := rng))
      else if n + pad + 4 > |buf| then Stuck(More, d.(rng := rng))
      else OpenFrame(p, s, d.(rng := rng), n, pad, buf[..n + pad + 4])
  }

  /** The decoder's turn, for a fixed protocol and session. */
  function Turns(p: Primitives, s: Session): Stepper<Side> {
    (d: Side, buf: Bytes) => DecodeStep(p, s, d, buf)
  }

  // ----- chunk independence -----

  lemma StepSettled(p: Primitives, s: Session, d: Side, a: Bytes, b: Bytes)
    requires !Waits(Turns(p, s), d, a)
    ensures DecodeStep(p, s, d, a + b) == DecodeStep(p, s, d, a)
  {
    assert (a + b)[..2] == a[..2];
    var (n, pad, rng) := Announced(p, d, a[..2]);
    if n + pad < FRAME_LIMIT {
      assert (a + b)[..n + pad + 4] == a[..n + pad + 4];
    }
  }

  lemma StepRestartable(p: Primitives, s: Session, d: Side, a: Bytes, b: Bytes)
    requires GoodPadding(p) && Waits(Turns(p, s), d, a)
    ensures DecodeStep(p, s, DecodeStep(p, s, d, a).state, a + b) == DecodeStep(p, s, d, a + b)
  {
    if |a| > 4 {
      var d' := DecodeStep(p, s, d, a).state;
      assert (a + b)[..2] == a[..2];
      AnnouncedAgain(p, d, a[..2]);
      assert d'.(rng := d'.rng) == d.(rng := d'.rng);
    }
  }

  lemma AnnouncedAgain(p: Primitives, d: Side, head: Bytes)
    requires GoodPadding(p) && |head| == 2
    ensures var r := Announced(p, d, head);
            Announced(p, d.(rng := r.2), head) == r
  {
    var n := Xor16(UnLe16(head), Mask(d.hash));
    assert p.padLen(n, d.hash, p.padLen(n, d.hash, d.rng).1) == p.padLen(n, d.hash, d.rng);
  }

  /** An incomplete frame leaves the generator partly used, yet the decoder can be restarted from there. */
  lemma TurnsRegular(p: Primitives, s: Session)
    requires GoodPadding(p)
    ensures Settled(Turns(p, s)) && Restartable(Turns(p, s)) && Progress(Turns(p, s))
    ensures forall d :: Waits(Turns(p, s), d, [])
  {
    var step := Turns(p, s);
    forall d, a: Bytes, b: Bytes {:trigger step(d, a + b)} | !Waits(step, d, a)
      ensures step(d, a + b) == step(d, a)
    {
      StepSettled(p, s, d, a, b);
    }
    forall d, a: Bytes, b: Bytes {:trigger step(step(d, a).state, a + b)} | Waits(step, d, a)
      ensures step(step(d, a).state, a + b) == step(d, a + b)
    {
      StepRestartable(p, s, d, a, b);
    }
  }

  // ----- delivery -----

  /** The two ends of a direction are in lock step: all but the generators agree. */
  predicate LockStep(e: Side, d: Side) {
    e.hash == d.hash && e.id == d.id && e.offset == d.offset
  }

  /** The decoder finds the payload where the encoder put it. */
  lemma BodyHoldsText(p: Primitives, text: Bytes, rnd: Bytes, rng: Rng)
    requires GoodPadding(p)
    ensures var pos := if |text| > 0 && |rnd| > 0 then Min(p.startPos(|rnd|, rng).0, |rnd|) else 0;
            pos + |text| <= |Body(p, text, rnd, rng).0| && Body(p, text, rnd, rng).0[pos..pos + |text|] == text
  {
  }

  /** The decoder reads the length and padding size of the frame that the encoder packed. */
  lemma HeaderRoundTrip(p: Primitives, s: Session, e: Side, d: Side, plain: Bytes, rnd: Bytes, w: Bytes)
    requires GoodPadding(p) && LockStep(e, d)
    requires |plain| <= MAX_PAYLOAD && CanPack(p, e, plain, rnd)
    requires 2 <= |w| && w[..2] == Frame(p, s, e, plain, rnd)[..2]
    ensures Xor16(UnLe16(w[..2]), Mask(d.hash)) == |plain|
    ensures var (pad, rng) := p.padLen(|plain|, d.hash, d.rng);
            pad == |rnd| && (pad > 0 ==> rng == p.padLen(|plain|, e.hash, e.rng).1)
  {
    assert w[..2] == Le16(Xor16(|plain|, Mask(e.hash)));
    Xor16Twice(|plain|, Mask(e.hash));
  }

  /** The decoder's state after opening a frame. */
  function AfterOpen(p: Primitives, s: Session, d: Side, n: nat, pad: nat, frame: Bytes): Side
    requires |frame| == n + pad + 4
  {
    Side(p.mac(MacKey(s, d.id), frame[..n + pad + 2]), Succ32(d.id), d.offset + n,
         if n > 0 && pad > 0 then p.startPos(pad, d.rng).1 else d.rng)
  }

  function AfterFrame(p: Primitives, s: Session, d: Side, plain: Bytes, rnd: Bytes, frame: Bytes): Side
    requires |plain| < 0x1_0000 && |frame| == |plain| + |rnd| + 4
  {
    AfterOpen(p, s, d.(rng := p.padLen(|plain|, d.hash, d.rng).1), |plain|, |rnd|, frame)
  }

  lemma AfterFrameLockStep(p: Primitives, s: Session, e: Side, d: Side, plain: Bytes, rnd: Bytes)
    requires LockStep(e, d) && CanPack(p, e, plain, rnd)
    ensures LockStep(AfterPack(p, s, e, plain, rnd), AfterFrame(p, s, d, plain, rnd, Frame(p, s, e, plain, rnd)))
  {
    var frame := Frame(p, s, e, plain, rnd);
    assert frame[..|plain| + |rnd| + 2] == FrameHead(p, s, e, plain, rnd);
  }

  lemma OpenOwnFrame(p: Primitives, s: Session, e: Side, d: Side, plain: Bytes, rnd: Bytes)
    requires GoodPadding(p) && LockStep(e, d) && CanPack(p, e, plain, rnd)
    requires |rnd| > 0 ==> d.rng == p.padLen(|plain|, e.hash, e.rng).1
    ensures var frame := Frame(p, s, e, plain, rnd);
            OpenFrame(p, s, d, |plain|, |rnd|, frame) == Got(plain, |frame|, AfterOpen(p, s, d, |plain|, |rnd|, frame))
  {
    var head := FrameHead(p, s, e, plain, rnd);
    var frame := Frame(p, s, e, plain, rnd);
    var text := ApplyKeystream(p.rc4(s.cipherKey), e.offset, plain);
    var rng0 := p.padLen(|plain|, e.hash, e.rng).1;
    assert frame[..|plain| + |rnd| + 2] == head;
    var pos := if |plain| > 0 && |rnd| > 0 then Min(p.startPos(|rnd|, d.rng).0, |rnd|) else 0;
    BodyHoldsText(p, text, rnd, rng0);
    assert frame[2 + pos..2 + pos + |plain|] == Body(p, text, rnd, rng0).0[pos..pos + |plain|];
    ApplyTwice(p.rc4(s.cipherKey), e.offset, plain);
  }

  /** A strict prefix of a frame makes the decoder wait. */
  lemma PartialFrameWaits(p: Primitives, s: Session, e: Side, d: Side, plain: Bytes, rnd: Bytes, w: Bytes)
    requires GoodPadding(p) && LockStep(e, d)
    requires |plain| <= MAX_PAYLOAD && CanPack(p, e, plain, rnd)
    requires w < Frame(p, s, e, plain, rnd)
    ensures Waits(Turns(p, s), d, w)
  {
    if |w| > 4 {
      HeaderRoundTrip(p, s, e, d, plain, rnd, w);
    }
  }

  /** A complete frame of the other end is decoded to its payload, and both ends move on in lock step. */
  lemma FrameRoundTrip(p: Primitives, s: Session, e: Side, d: Side, plain: Bytes, rnd: Bytes, more: Bytes)
    requires GoodPadding(p) && LockStep(e, d)
    requires |plain| <= MAX_PAYLOAD && CanPack(p, e, plain, rnd)
    requires |Frame(p, s, e, plain, rnd) + more| > 4
    ensures var frame := Frame(p, s, e, plain, rnd);
            DecodeStep(p, s, d, frame + more) == Got(plain, |frame|, AfterFrame(p, s, d, plain, rnd, frame))
  {
    var frame := Frame(p, s, e, plain, rnd);
    var buf := frame + more;
    assert buf[..2] == frame[..2];
    HeaderRoundTrip(p, s, e, d, plain, rnd, buf);
    assert |plain| + p.padLen(|plain|, e.hash, e.rng).0 < FRAME_LIMIT;
    assert buf[..|frame|] == frame;
    OpenOwnFrame(p, s, e, d.(rng := p.padLen(|plain|, d.hash, d.rng).1), plain, rnd);
  }

  lemma FrameOpens(p: Primitives, s: Session, e: Side, d: Side, m: Msg)
    requires GoodPadding(p) && LockStep(e, d)
    requires |m.plain| <= MAX_PAYLOAD && CanPack(p, e, m.plain, m.rnd)
    ensures var frame := Frame(p, s, e, m.plain, m.rnd);
            Opens(Turns(p, s), 4, d, Packet(frame, m.plain), AfterFrame(p, s, d, m.plain, m.rnd, frame))
  {
    var frame := Frame(p, s, e, m.plain, m.rnd);
    forall more: Bytes | |frame + more| > 4
      ensures DecodeStep(p, s, d, frame + more) == Got(m.plain, |frame|, AfterFrame(p, s, d, m.plain, m.rnd, frame))
    {
      FrameRoundTrip(p, s, e, d, m.plain, m.rnd, more);
    }
    forall w: Bytes | w <= frame && (w == frame ==> |w| <= 4)
      ensures Waits(Turns(p, s), d, w)
    {
      if w != frame {
        PartialFrameWaits(p, s, e, d, m.plain, m.rnd, w);
      }
    }
  }

  // ----- the codec -----

  predicate Packable(p: Primitives, d: Side, m: Msg) {
    |m.plain| <= MAX_PAYLOAD && CanPack(p, d, m.plain, m.rnd)
  }

  /** Encoder and decoder of one direction, under the keys of a session. */
  function Chain(p: Primitives, s: Session): Codec<Side, Side> {
    Codec((e: Side, m: Msg) => Packable(p, e, m),
          (e: Side, m: Msg) => if Packable(p, e, m) then Frame(p, s, e, m.plain, m.rnd) else [],
          (e: Side, m: Msg) => if Packable(p, e, m) then AfterPack(p, s, e, m.plain, m.rnd) else e,
          Turns(p, s),
          (e: Side, d: Side, m: Msg) =>
            if Packable(p, e, m) then AfterFrame(p, s, d, m.plain, m.rnd, Frame(p, s, e, m.plain, m.rnd)) else d,
          (e: Side, d: Side) => LockStep(e, d),
          4)
  }

  lemma WaitingKeepsLockStep(p: Primitives, s: Session, e: Side, d: Side, w: Bytes)
    requires LockStep(e, d) && Waits(Turns(p, s), d, w)
    ensures LockStep(e, DecodeStep(p, s, d, w).state)
  {
  }

  /** Every frame of the encoder opens to its payload at an end that agrees on previous digest, frame number and
      cipher offset, and leaves both ends agreeing on them again. */
  lemma ChainMatched(p: Primitives, s: Session)
    requires GoodPadding(p)
    ensures Matched(Chain(p, s))
  {
    var c := Chain(p, s);
    TurnsRegular(p, s);
    forall e, d, m {:trigger c.accept(e, d, m)} | c.agree(e, d) && c.canPack(e, m)
      ensures Opens(c.step, c.least, d, Packet(c.frame(e, m), m.plain), c.accept(e, d, m))
      ensures c.agree(c.next(e, m), c.accept(e, d, m))
    {
      FrameOpens(p, s, e, d, m);
      AfterFrameLockStep(p, s, e, d, m.plain, m.rnd);
    }
    forall e, d, w {:trigger c.agree(e, c.step(d, w).state)} | c.agree(e, d) && Waits(c.step, d, w)
      ensures c.agree(e, c.step(d, w).state)
    {
      WaitingKeepsLockStep(p, s, e, d, w);
    }
  }

  lemma ChainSizes(p: Primitives, s: Session)
    ensures var c := Chain(p, s);
            forall e, m {:trigger c.frame(e, m)} :: c.canPack(e, m) ==> |c.frame(e, m)| >= c.least + |m.plain|
  {
  }

  /** Delivery: the bytes of a whole run of the encoder, decoded, give back every payload byte in order. */
  lemma {:induction false} Delivery(p: Primitives, s: Session, e: Side, d: Side, msgs: seq<Msg>)
    requires GoodPadding(p) && LockStep(e, d) && CanPackAll(Chain(p, s), e, msgs)
    ensures var r := Decode(Turns(p, s), d, Sent(Chain(p, s), e, msgs));
            r.verdict == More && Flatten(r.frames) == Flatten(Texts(msgs)) && |r.rest| <= 4
  {
    ChainMatched(p, s);
    ChainSizes(p, s);
    DeliversAll(Chain(p, s), e, d, msgs);
  }
}
