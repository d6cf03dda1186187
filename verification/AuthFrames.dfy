/**
 * The frames of auth_sha1_v4 and auth_aes128: a length with a two-byte check, a padding
 * that tells its own size, the payload, and a four-byte check over all of it.
 */
module AuthFrames {
  import opened ByteStrings
  import opened FrameLink
  import opened FrameLoop

  type Tag2 = b: Bytes | |b| == 2 witness [0, 0]
  type Tag4 = b: Bytes | |b| == 4 witness [0, 0, 0, 0]

  /** What the two protocols do differently: byte order, the checks (of frame number and bytes), and whether frames are
      numbered. */
  datatype Format = Format(big: bool, headTag: (U32, Bytes) -> Tag2, tailTag: (U32, Bytes) -> Tag4, numbered: bool)

  /** A digest of SHA-1 or MD5. */
  type Mac = b: Bytes | |b| >= 16 witness seq(16, _ => 0)

  function First2(m: Mac): Tag2 {
    m[..2]
  }

  function First4(m: Mac): Tag4 {
    m[..4]
  }

  function Sha1V4(crc32: Bytes -> U32, adler32: Bytes -> U32): Format {
    Format(true,
           (id: U32, b: Bytes) => Le16(crc32(b) % 0x1_0000),
           (id: U32, b: Bytes) => Le32(adler32(b)),
           false)
  }

  function Aes128(mac: (Bytes, Bytes) -> Mac, userKey: Bytes): Format {
    Format(false,
           (id: U32, b: Bytes) => First2(mac(userKey + Le32(id), b)),
           (id: U32, b: Bytes) => First4(mac(userKey + Le32(id), b)),
           true)
  }

  function Pack16(big: bool, n: U16): (b: Bytes)
    ensures |b| == 2
  {
    if big then Be16(n) else Le16(n)
  }

  function Unpack16(big: bool, b: Bytes): U16
    requires |b| == 2
  {
    if big then UnBe16(b) else UnLe16(b)
  }

  lemma Pack16RoundTrip(big: bool, n: U16)
    ensures Unpack16(big, Pack16(big, n)) == n
  {
  }

  function NextId(f: Format, id: U32): U32 {
    if f.numbered then Succ32(id) else id
  }

  const MIN_FRAME := 7
  const FRAME_LIMIT := 8192

  // ----- padding -----

  /** A padding that tells its own size: in its first byte, or after a first byte 255 in the next two. */
  predicate TellsSize(big: bool, pad: Bytes) {
    && |pad| > 0
    && if pad[0] < 255 then pad[0] == |pad| else |pad| >= 3 && Unpack16(big, pad[1..3]) == |pad|
  }

  /** Size bytes of padding, of which all but the encoded size are random. */
  function Padding(big: bool, size: nat, rnd: Bytes): (pad: Bytes)
    requires 0 < size < 0x1_0000 && |rnd| == if size <= 128 then size - 1 else size - 3
    ensures |pad| == size && TellsSize(big, pad)
  {
    if size <= 128 then [size] + rnd
    else
      var pad := [255] + Pack16(big, size) + rnd;
      assert pad[1..3] == Pack16(big, size);
      Pack16RoundTrip(big, size);
      pad
  }

  // ----- one frame -----

  predicate Packable(f: Format, m: Msg) {
    TellsSize(f.big, m.rnd) && |m.rnd| + |m.plain| + 8 < FRAME_LIMIT
  }

  /** A frame without its last check. m.rnd is the whole padding. */
  function FrameHead(f: Format, id: U32, m: Msg): (b: Bytes)
    requires Packable(f, m)
    ensures |b| == |m.rnd| + |m.plain| + 4
  {
    var size := Pack16(f.big, |m.rnd| + |m.plain| + 8);
    size + f.headTag(id, size) + m.rnd + m.plain
  }

  function Frame(f: Format, id: U32, m: Msg): (b: Bytes)
    requires Packable(f, m)
    ensures |b| == |m.rnd| + |m.plain| + 8
  {
    FrameHead(f, id, m) + f.tailTag(id, FrameHead(f, id, m))
  }

  /** The receiving end: the number of the next frame, and whether a frame without payload has asked for an answer. */
  datatype Inbound = Inbound(id: U32, asked: bool)

  /** Where the payload of a frame starts. */
  function PayloadStart(f: Format, frame: Bytes): nat
    requires |frame| >= MIN_FRAME
  {
    4 + if frame[4] < 255 then frame[4] else Unpack16(f.big, frame[5..7])
  }

  function OpenFrame(f: Format, d: Inbound, frame: Bytes): (r: Turn<Inbound>)
    requires |frame| >= MIN_FRAME
    ensures r.Got? ==> r.size == |frame|
    ensures r.Stuck? ==> r.verdict == BadTag
  {
    var last := |frame| - 4;
    if f.tailTag(d.id, frame[..last]) != frame[last..] then Stuck(BadTag, d)
    else
      var pos := PayloadStart(f, frame);
      Got(if pos <= last then frame[pos..last] else [], |frame|, Inbound(NextId(f, d.id), d.asked || pos == last))
  }

  /** One turn of the receive loop. */
  function DecodeStep(f: Format, d: Inbound, buf: Bytes): (r: Turn<Inbound>)
    ensures r.Got? ==> MIN_FRAME <= r.size <= |buf|
  {
    if |buf| <= 4 then Stuck(More, d)
    else if f.headTag(d.id, buf[..2]) != buf[2..4] then Stuck(BadHead, d)
    else
      var size: int := Unpack16(f.big, buf[..2]);
      if size >= FRAME_LIMIT || size < MIN_FRAME then Stuck(BadLength, d)
      else if size > |buf| then Stuck(More, d)
      else OpenFrame(f, d, buf[..size])
  }

  function Turns(f: Format): Stepper<Inbound> {
    (d: Inbound, buf: Bytes) => DecodeStep(f, d, buf)
  }

  // ----- chunk independence -----

  lemma StepSettled(f: Format, d: Inbound, a: Bytes, b: Bytes)
    requires !Waits(Turns(f), d, a)
    ensures DecodeStep(f, d, a + b) == DecodeStep(f, d, a)
  {
    hide OpenFrame;
    assert (a + b)[..2] == a[..2] && (a + b)[2..4] == a[2..4];
    var size := Unpack16(f.big, a[..2]);
    if size <= |a| {
      assert (a + b)[..size] == a[..size];
    }
  }

  lemma TurnsRegular(f: Format)
    ensures Settled(Turns(f)) && Restartable(Turns(f)) && Progress(Turns(f))
    ensures forall d :: Turns(f)(d, []) == Stuck(More, d)
  {
    hide OpenFrame;
    var step := Turns(f);
    forall d, a: Bytes, b: Bytes {:trigger step(d, a + b)} | !Waits(step, d, a)
      ensures step(d, a + b) == step(d, a)
    {
      StepSettled(f, d, a, b);
    }
  }

  // ----- delivery -----

  /** The parts of a frame, as the decoder cuts it. */
  lemma FrameParts(f: Format, id: U32, m: Msg)
    requires Packable(f, m)
    ensures var frame := Frame(f, id, m);
            var size := Pack16(f.big, |frame|);
            && frame[..2] == size && frame[2..4] == f.headTag(id, size)
            && frame[..|frame| - 4] == FrameHead(f, id, m)
            && frame[|frame| - 4..] == f.tailTag(id, FrameHead(f, id, m))
            && frame[4..4 + |m.rnd|] == m.rnd && frame[4 + |m.rnd|..|frame| - 4] == m.plain
  {
  }

  lemma PaddingSkipped(f: Format, id: U32, m: Msg)
    requires Packable(f, m)
    ensures PayloadStart(f, Frame(f, id, m)) == 4 + |m.rnd|
  {
    var frame := Frame(f, id, m);
    assert frame[4..4 + |m.rnd|] == m.rnd by {
      FrameParts(f, id, m);
    }
    assert frame[4] == m.rnd[0];
    if m.rnd[0] == 255 {
      assert frame[5..7] == m.rnd[1..3];
    }
  }

  function Accept(f: Format, d: Inbound, m: Msg): Inbound {
    Inbound(NextId(f, d.id), d.asked || m.plain == [])
  }

  lemma OpenOwnFrame(f: Format, d: Inbound, m: Msg)
    requires Packable(f, m)
    ensures OpenFrame(f, d, Frame(f, d.id, m)) == Got(m.plain, |Frame(f, d.id, m)|, Accept(f, d, m))
  {
    hide PayloadStart;
    FrameParts(f, d.id, m);
    PaddingSkipped(f, d.id, m);
  }

  /** A complete frame opens, to its payload, whatever follows it; and until it is complete the decoder waits. */
  lemma FrameOpens(f: Format, d: Inbound, m: Msg)
    requires Packable(f, m)
    ensures Opens(Turns(f), 4, d, Packet(Frame(f, d.id, m), m.plain), Accept(f, d, m))
  {
    var frame := Frame(f, d.id, m);
    forall more: Bytes | |frame + more| > 4
      ensures DecodeStep(f, d, frame + more) == Got(m.plain, |frame|, Accept(f, d, m))
    {
      WholeFrame(f, d, m, more);
    }
    forall w: Bytes | w < frame
      ensures Waits(Turns(f), d, w)
    {
      PartialFrame(f, d, m, w);
    }
  }

  lemma WholeFrame(f: Format, d: Inbound, m: Msg, more: Bytes)
    requires Packable(f, m)
    ensures DecodeStep(f, d, Frame(f, d.id, m) + more) == Got(m.plain, |Frame(f, d.id, m)|, Accept(f, d, m))
  {
    hide OpenFrame, Frame, TellsSize;
    var frame := Frame(f, d.id, m);
    FrameParts(f, d.id, m);
    Pack16RoundTrip(f.big, |frame|);
    OpenOwnFrame(f, d, m);
    assert (frame + more)[..2] == frame[..2] && (frame + more)[2..4] == frame[2..4];
    assert (frame + more)[..|frame|] == frame;
  }

  lemma PartialFrame(f: Format, d: Inbound, m: Msg, w: Bytes)
    requires Packable(f, m) && w < Frame(f, d.id, m)
    ensures Waits(Turns(f), d, w)
  {
    hide OpenFrame, Frame, TellsSize;
    var frame := Frame(f, d.id, m);
    if |w| > 4 {
      FrameParts(f, d.id, m);
      Pack16RoundTrip(f.big, |frame|);
      assert w[..2] == frame[..2] && w[2..4] == frame[2..4];
    }
  }

  /** The encoder and decoder of one direction; the encoder's state is the number of the next frame. */
  function Framing(f: Format): Codec<U32, Inbound> {
    Codec((id: U32, m: Msg) => Packable(f, m),
          (id: U32, m: Msg) => if Packable(f, m) then Frame(f, id, m) else [],
          (id: U32, m: Msg) => NextId(f, id),
          Turns(f),
          (id: U32, d: Inbound, m: Msg) => Accept(f, d, m),
          (id: U32, d: Inbound) => d.id == id,
          4)
  }

  lemma FramingMatched(f: Format)
    ensures Matched(Framing(f)) && NoFrameTooShort(Framing(f))
  {
    hide DecodeStep, Frame, Packable;
    var c := Framing(f);
    TurnsRegular(f);
    forall id, d, m {:trigger c.accept(id, d, m)} | c.agree(id, d) && c.canPack(id, m)
      ensures Opens(c.step, c.least, d, Packet(c.frame(id, m), m.plain), c.accept(id, d, m))
              && c.agree(c.next(id, m), c.accept(id, d, m))
    {
      FrameOpens(f, d, m);
    }
    forall id, d, w {:trigger c.agree(id, c.step(d, w).state)} | c.agree(id, d) && Waits(c.step, d, w)
      ensures c.agree(id, c.step(d, w).state)
    {
      WaitingKeeps(f, d, w);
    }
    forall id, m {:trigger c.frame(id, m)} | c.canPack(id, m)
      ensures |c.frame(id, m)| >= c.least + |m.plain|
    {
    }
  }

  lemma WaitingKeeps(f: Format, d: Inbound, w: Bytes)
    requires Waits(Turns(f), d, w)
    ensures DecodeStep(f, d, w).state == d
  {
  }

  /** One direction over whole runs: however writes and deliveries interleave, whatever padding is drawn, whatever the
      frame number starts from and however often it wraps, the decoder never fails and outputs exactly what was
      written. */
  lemma FramingDelivers(f: Format, id: U32, events: seq<Event>) returns (k: nat)
    requires IsRun(Framing(f), Start(id, Inbound(id, false)), events)
    ensures Delivering(Framing(f), id, RunLink(Framing(f), Start(id, Inbound(id, false)), events), k)
  {
    hide DecodeStep, Frame, Packable;
    FramingMatched(f);
    TurnsRegular(f);
    k := RunDelivers(Framing(f), id, Inbound(id, false), events);
  }
}
