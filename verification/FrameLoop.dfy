/**
 * The receive loop shared by the stream protocols: bytes are appended to a buffer,
 * and while a turn of the loop finds a complete frame, its payload is output and
 * its bytes are dropped. A protocol is given by one turn, a function of its state
 * and the buffer.
 */
module FrameLoop {
  import opened ByteStrings

  datatype Verdict = More | BadHead | BadLength | BadTag

  datatype Turn<+S> =
    | Stuck(verdict: Verdict, state: S)
    | Got(plain: Bytes, size: nat, state: S)

  type Stepper<!S> = (S, Bytes) -> Turn<S>

  /** The turn ends the loop because bytes are missing. */
  predicate Waits<S>(step: Stepper<S>, s: S, buf: Bytes) {
    var t := step(s, buf);
    t.Stuck? && t.verdict == More
  }

  datatype Decoded<+S> = Decoded(frames: seq<Bytes>, state: S, rest: Bytes, verdict: Verdict)

  /** The loop: payloads of the frames decoded, the state and bytes left, and why it stopped. */
  function Decode<S>(step: Stepper<S>, s: S, buf: Bytes): (r: Decoded<S>)
    decreases |buf|
  {
    match step(s, buf)
    case Stuck(v, s') => Decoded([], s', buf, v)
    case Got(plain, size, s') =>
      if 0 < size <= |buf| then
        var r := Decode(step, s', buf[size..]);
        r.(frames := [plain] + r.frames)
      else Decoded([], s', buf, More)
  }

  /** A turn that had all it needed does not look at the bytes that follow. */
  ghost predicate Settled<S(!new)>(step: Stepper<S>) {
    forall s, a, b {:trigger step(s, a + b)} :: !Waits(step, s, a) ==> step(s, a + b) == step(s, a)
  }

  /** A turn that ran out of bytes leaves a state from which the next turn goes as from the original one. */
  ghost predicate Restartable<S(!new)>(step: Stepper<S>) {
    forall s, a, b {:trigger step(step(s, a).state, a + b)} ::
      Waits(step, s, a) ==> step(step(s, a).state, a + b) == step(s, a + b)
  }

  ghost predicate Progress<S(!new)>(step: Stepper<S>) {
    forall s, a :: step(s, a).Got? ==> 0 < step(s, a).size <= |a|
  }

  /** Feeding a and then b is feeding a + b: same payloads, same later state, same verdict,
      for every a after which the decoder still waits. If a already fails, so does a + b, in the same state. */
  lemma {:induction false} DecodeChunks<S(!new)>(step: Stepper<S>, s: S, a: Bytes, b: Bytes)
    requires Settled(step) && Restartable(step) && Progress(step)
    ensures var x := Decode(step, s, a);
            var whole := Decode(step, s, a + b);
            if x.verdict == More then
              var y := Decode(step, x.state, x.rest + b);
              whole == y.(frames := x.frames + y.frames)
            else
              whole == x.(rest := x.rest + b)
    decreases |a|
  {
    var t := step(s, a);
    if Waits(step, s, a) {
      assert step(t.state, a + b) == step(s, a + b);
      var y := Decode(step, t.state, a + b);
      assert [] + y.frames == y.frames;
    } else {
      assert step(s, a + b) == t;
      if t.Got? {
        assert (a + b)[t.size..] == a[t.size..] + b;
        DecodeChunks(step, t.state, a[t.size..], b);
        JoinFrames(t.plain, Decode(step, t.state, a[t.size..]).frames, Decode(step, t.state, a[t.size..] + b).frames);
      }
    }
  }

  lemma JoinFrames(a: Bytes, b: seq<Bytes>, bc: seq<Bytes>)
    requires b <= bc
    ensures ([a] + b) + bc[|b|..] == [a] + bc
  {
  }

  // ----- frames of the peer -----

  /** A frame as sent: its bytes and its payload. */
  datatype Packet = Packet(wire: Bytes, plain: Bytes)

  function Wire(packets: seq<Packet>): Bytes {
    if packets == [] then [] else packets[0].wire + Wire(packets[1..])
  }

  lemma {:induction false} WireAppend(a: seq<Packet>, b: seq<Packet>)
    ensures Wire(a + b) == Wire(a) + Wire(b)
  {
    if a == [] {
      assert a + b == b;
    } else {
      assert (a + b)[1..] == a[1..] + b;
      WireAppend(a[1..], b);
    }
  }

  function Plains(packets: seq<Packet>): (r: seq<Bytes>)
    ensures |r| == |packets|
  {
    seq(|packets|, i requires 0 <= i < |packets| => packets[i].plain)
  }

  /** From s, the packet is opened as soon as all of it and more than `least` bytes are there,
      leaving s', and until then the decoder waits. */
  ghost predicate Opens<S>(step: Stepper<S>, least: nat, s: S, packet: Packet, s': S) {
    && 0 < |packet.wire| && least <= |packet.wire|
    && (forall more: Bytes {:trigger packet.wire + more} :: |packet.wire + more| > least ==>
          step(s, packet.wire + more) == Got(packet.plain, |packet.wire|, s'))
    && (forall w: Bytes {:trigger step(s, w)} :: w <= packet.wire && (w == packet.wire ==> |w| <= least) ==>
          Waits(step, s, w))
  }

  /** The packets open one after the other, through the given states. */
  ghost predicate OpensAll<S>(step: Stepper<S>, least: nat, states: seq<S>, packets: seq<Packet>) {
    && |states| == |packets| + 1
    && forall i {:trigger packets[i]} :: 0 <= i < |packets| ==> Opens(step, least, states[i], packets[i], states[i + 1])
  }

  /** How many packets have been opened once the first w bytes of their wire form have arrived:
      all that are complete, except that a last one is left alone while no more than `least` bytes remain. */
  function Complete(least: nat, packets: seq<Packet>, w: nat): (k: nat)
    ensures k <= |packets|
  {
    if packets == [] || w < |packets[0].wire| || w <= least then 0
    else 1 + Complete(least, packets[1..], w - |packets[0].wire|)
  }

  /** What comes out of the decoder r once k packets have been opened out of the bytes w. */
  ghost predicate DeliveredUpTo<S>(states: seq<S>, packets: seq<Packet>, k: nat, w: Bytes, step: Stepper<S>,
                                   r: Decoded<S>) {
    && k <= |packets| && |states| == |packets| + 1
    && r.verdict == More
    && r.frames == Plains(packets[..k])
    && Wire(packets[..k]) + r.rest == w
    && (r.state == states[k] || (Waits(step, states[k], r.rest) && r.state == step(states[k], r.rest).state))
  }

  lemma DeliveredFirst<S>(states: seq<S>, packets: seq<Packet>, k: nat, w: Bytes, step: Stepper<S>, r: Decoded<S>)
    requires |packets| > 0 && |states| == |packets| + 1
    requires DeliveredUpTo(states[1..], packets[1..], k, w, step, r)
    ensures DeliveredUpTo(states, packets, k + 1, packets[0].wire + w, step,
                          r.(frames := [packets[0].plain] + r.frames))
  {
    assert packets[..k + 1][1..] == packets[1..][..k];
    assert Plains(packets[..k + 1]) == [packets[0].plain] + Plains(packets[1..][..k]);
    assert packets[0].wire + (Wire(packets[1..][..k]) + r.rest) == (packets[0].wire + Wire(packets[1..][..k])) + r.rest;
  }

  /** Whatever prefix w of the peer's bytes has arrived, the decoder has not failed, has output exactly the payloads
      of the packets counted by Complete, is in the state after those packets (or that of a turn that waits there),
      and keeps exactly the bytes it has not used. */
  lemma {:induction false} PrefixDelivery<S(!new)>(step: Stepper<S>, least: nat, states: seq<S>, packets: seq<Packet>,
                                                   w: Bytes)
    requires OpensAll(step, least, states, packets)
    requires forall s :: Waits(step, s, [])
    requires w <= Wire(packets)
    ensures DeliveredUpTo(states, packets, Complete(least, packets, |w|), w, step, Decode(step, states[0], w))
    decreases |packets|
  {
    var k := Complete(least, packets, |w|);
    if packets == [] {
      assert w == [] && Waits(step, states[0], []);
    } else {
      var first := packets[0];
      assert Opens(step, least, states[0], first, states[1]);
      if k == 0 {
        PrefixOfFirst(first.wire, Wire(packets[1..]), w);
        assert Waits(step, states[0], w);
        assert packets[..0] == [];
      } else {
        var w' := w[|first.wire|..];
        assert w == first.wire + w';
        assert w' <= Wire(packets[1..]);
        assert step(states[0], first.wire + w') == Got(first.plain, |first.wire|, states[1]);
        OpensRest(step, least, states, packets);
        PrefixDelivery(step, least, states[1..], packets[1..], w');
        DeliveredFirst(states, packets, k - 1, w', step, Decode(step, states[1], w'));
      }
    }
  }

  lemma OpensRest<S>(step: Stepper<S>, least: nat, states: seq<S>, packets: seq<Packet>)
    requires OpensAll(step, least, states, packets) && packets != []
    ensures OpensAll(step, least, states[1..], packets[1..])
  {
    forall i {:trigger packets[1..][i]} | 0 <= i < |packets[1..]|
      ensures Opens(step, least, states[1..][i], packets[1..][i], states[1..][i + 1])
    {
      assert Opens(step, least, states[i + 1], packets[i + 1], states[i + 2]);
    }
  }

  lemma OpensCons<S>(step: Stepper<S>, least: nat, s: S, packet: Packet, states: seq<S>, packets: seq<Packet>)
    requires OpensAll(step, least, states, packets) && Opens(step, least, s, packet, states[0])
    ensures OpensAll(step, least, [s] + states, [packet] + packets)
  {
    var states', packets' := [s] + states, [packet] + packets;
    forall i {:trigger packets'[i]} | 0 <= i < |packets'|
      ensures Opens(step, least, states'[i], packets'[i], states'[i + 1])
    {
      if i > 0 {
        assert Opens(step, least, states[i - 1], packets[i - 1], states[i]);
      }
    }
  }

  lemma PrefixOfFirst(a: Bytes, b: Bytes, w: Bytes)
    requires w <= a + b
    ensures |w| <= |a| ==> w <= a
    ensures |w| >= |a| ==> a <= w
  {
  }

  /** When all bytes have arrived, all packets have been opened, except perhaps a last one of at most `least` bytes. */
  lemma {:induction false} CompleteAll(least: nat, packets: seq<Packet>)
    requires least > 0 && forall i :: 0 <= i < |packets| ==> |packets[i].wire| >= least
    ensures var k := Complete(least, packets, |Wire(packets)|);
            k == |packets| || (k == |packets| - 1 && |packets[k].wire| <= least)
  {
    if packets != [] {
      CompleteAll(least, packets[1..]);
      if |packets| > 1 {
        assert |Wire(packets)| >= |packets[0].wire| + |packets[1].wire|;
      }
    }
  }

  // ----- an encoder and a decoder -----

  /** A payload handed to an encoder, with the random bytes it drew for the padding. */
  datatype Msg = Msg(plain: Bytes, rnd: Bytes)

  /**
   * An encoder (which messages it can pack in a state, the frame, the next state) with the decoder of the other end
   * (its turn, its state after opening a given frame) and the relation that holds between two ends in lock step.
   */
  datatype Codec<!E, !D> = Codec(
    canPack: (E, Msg) -> bool,
    frame: (E, Msg) -> Bytes,
    next: (E, Msg) -> E,
    step: Stepper<D>,
    accept: (E, D, Msg) -> D,
    agree: (E, D) -> bool,
    least: nat)

  /** Every frame opens, to its payload, at an end in lock step, and leaves both ends in lock step;
      so does waiting; and the decoder's turn can be interrupted and taken up again. */
  ghost predicate Matched<E(!new), D(!new)>(c: Codec<E, D>) {
    && Settled(c.step) && Restartable(c.step) && Progress(c.step)
    && (forall d :: Waits(c.step, d, []))
    && (forall e, d, m {:trigger c.accept(e, d, m)} :: c.agree(e, d) && c.canPack(e, m) ==>
          Opens(c.step, c.least, d, Packet(c.frame(e, m), m.plain), c.accept(e, d, m))
          && c.agree(c.next(e, m), c.accept(e, d, m)))
    && (forall e, d, w {:trigger c.agree(e, c.step(d, w).state)} ::
          c.agree(e, d) && Waits(c.step, d, w) ==> c.agree(e, c.step(d, w).state))
  }

  /** The encoder can pack these messages one after the other. */
  predicate CanPackAll<E, D>(c: Codec<E, D>, e: E, msgs: seq<Msg>)
    decreases |msgs|
  {
    msgs == [] || (c.canPack(e, msgs[0]) && CanPackAll(c, c.next(e, msgs[0]), msgs[1..]))
  }

  function Packets<E, D>(c: Codec<E, D>, e: E, msgs: seq<Msg>): (r: seq<Packet>)
    ensures |r| == |msgs|
    decreases |msgs|
  {
    if msgs == [] then []
    else [Packet(c.frame(e, msgs[0]), msgs[0].plain)] + Packets(c, c.next(e, msgs[0]), msgs[1..])
  }

  function AfterAll<E, D>(c: Codec<E, D>, e: E, msgs: seq<Msg>): E
    decreases |msgs|
  {
    if msgs == [] then e else AfterAll(c, c.next(e, msgs[0]), msgs[1..])
  }

  /** The bytes that a run of the encoder sends. */
  function Sent<E, D>(c: Codec<E, D>, e: E, msgs: seq<Msg>): Bytes {
    Wire(Packets(c, e, msgs))
  }

  function Texts(msgs: seq<Msg>): (r: seq<Bytes>)
    ensures |r| == |msgs|
  {
    seq(|msgs|, i requires 0 <= i < |msgs| => msgs[i].plain)
  }

  /** Packing more messages later extends the run. */
  lemma {:induction false} RunAppend<E, D>(c: Codec<E, D>, e: E, a: seq<Msg>, b: seq<Msg>)
    ensures CanPackAll(c, e, a + b) == (CanPackAll(c, e, a) && CanPackAll(c, AfterAll(c, e, a), b))
    ensures Packets(c, e, a + b) == Packets(c, e, a) + Packets(c, AfterAll(c, e, a), b)
    ensures AfterAll(c, e, a + b) == AfterAll(c, AfterAll(c, e, a), b)
    decreases |a|
  {
    if a == [] {
      assert a + b == b;
    } else {
      assert (a + b)[1..] == a[1..] + b;
      RunAppend(c, c.next(e, a[0]), a[1..], b);
    }
  }

  lemma {:induction false} SentAppend<E, D>(c: Codec<E, D>, e: E, a: seq<Msg>, b: seq<Msg>)
    ensures Sent(c, e, a + b) == Sent(c, e, a) + Sent(c, AfterAll(c, e, a), b)
  {
    RunAppend(c, e, a, b);
    WireAppend(Packets(c, e, a), Packets(c, AfterAll(c, e, a), b));
  }

  lemma {:induction false} RunOfOne<E, D>(c: Codec<E, D>, e: E, m: Msg)
    ensures CanPackAll(c, e, [m]) == c.canPack(e, m)
    ensures Sent(c, e, [m]) == c.frame(e, m)
    ensures AfterAll(c, e, [m]) == c.next(e, m)
  {
    assert [m][1..] == [];
    assert CanPackAll(c, c.next(e, m), []) && AfterAll(c, c.next(e, m), []) == c.next(e, m);
    assert Packets(c, e, [m]) == [Packet(c.frame(e, m), m.plain)];
    assert Wire([Packet(c.frame(e, m), m.plain)]) == c.frame(e, m);
  }

  lemma {:induction false} PlainsOfRun<E, D>(c: Codec<E, D>, e: E, msgs: seq<Msg>)
    ensures Plains(Packets(c, e, msgs)) == Texts(msgs)
    decreases |msgs|
  {
    if msgs != [] {
      PlainsOfRun(c, c.next(e, msgs[0]), msgs[1..]);
      forall i | 0 <= i < |msgs|
        ensures Plains(Packets(c, e, msgs))[i] == Texts(msgs)[i]
      {
        if i > 0 {
          assert Plains(Packets(c, c.next(e, msgs[0]), msgs[1..]))[i - 1] == Texts(msgs[1..])[i - 1];
        }
      }
    }
  }

  /** The decoder's states after each frame of a run. */
  function DecoderStates<E, D>(c: Codec<E, D>, e: E, d: D, msgs: seq<Msg>): (r: seq<D>)
    ensures |r| == |msgs| + 1 && r[0] == d
    decreases |msgs|
  {
    if msgs == [] then [d] else [d] + DecoderStates(c, c.next(e, msgs[0]), c.accept(e, d, msgs[0]), msgs[1..])
  }

  lemma {:induction false} RunOpens<E(!new), D(!new)>(c: Codec<E, D>, e: E, d: D, msgs: seq<Msg>)
    requires Matched(c) && c.agree(e, d) && CanPackAll(c, e, msgs)
    ensures OpensAll(c.step, c.least, DecoderStates(c, e, d, msgs), Packets(c, e, msgs))
    decreases |msgs|
  {
    if msgs != [] {
      var e', d' := c.next(e, msgs[0]), c.accept(e, d, msgs[0]);
      RunOpens(c, e', d', msgs[1..]);
      OpensCons(c.step, c.least, d, Packet(c.frame(e, msgs[0]), msgs[0].plain),
                DecoderStates(c, e', d', msgs[1..]), Packets(c, e', msgs[1..]));
    }
  }

  /** After k frames both ends are in lock step. */
  lemma {:induction false} RunAgrees<E(!new), D(!new)>(c: Codec<E, D>, e: E, d: D, msgs: seq<Msg>, k: nat)
    requires Matched(c) && c.agree(e, d) && CanPackAll(c, e, msgs) && k <= |msgs|
    ensures c.agree(AfterAll(c, e, msgs[..k]), DecoderStates(c, e, d, msgs)[k])
    decreases k
  {
    if k > 0 {
      RunAgrees(c, c.next(e, msgs[0]), c.accept(e, d, msgs[0]), msgs[1..], k - 1);
      assert msgs[..k][1..] == msgs[1..][..k - 1];
    }
  }

  /** How far the decoder r of the run msgs has come on the bytes w: no failure, exactly the payloads of the first
      k messages, in lock step with the encoder as it was after those, and exactly the unused bytes kept. */
  ghost predicate InStep<E, D>(c: Codec<E, D>, e: E, msgs: seq<Msg>, k: nat, w: Bytes, r: Decoded<D>) {
    && k <= |msgs|
    && r.verdict == More
    && r.frames == Texts(msgs[..k])
    && Sent(c, e, msgs[..k]) + r.rest == w
    && c.agree(AfterAll(c, e, msgs[..k]), r.state)
  }

  /** Lock step and delivery, for whatever prefix w of the encoder's bytes has arrived. */
  lemma {:induction false} LockStepDelivery<E(!new), D(!new)>(c: Codec<E, D>, e: E, d: D, msgs: seq<Msg>, w: Bytes)
    requires Matched(c) && c.agree(e, d) && CanPackAll(c, e, msgs)
    requires w <= Sent(c, e, msgs)
    ensures InStep(c, e, msgs, Complete(c.least, Packets(c, e, msgs), |w|), w, Decode(c.step, d, w))
  {
    var packets := Packets(c, e, msgs);
    var states := DecoderStates(c, e, d, msgs);
    var k := Complete(c.least, packets, |w|);
    var r := Decode(c.step, d, w);
    assert DeliveredUpTo(states, packets, k, w, c.step, r) by {
      RunOpens(c, e, d, msgs);
      PrefixDelivery(c.step, c.least, states, packets, w);
    }
    FirstPackets(c, e, msgs, k);
    RunAgrees(c, e, d, msgs, k);
    if r.state != states[k] {
      assert c.agree(AfterAll(c, e, msgs[..k]), c.step(states[k], r.rest).state);
    }
  }

  lemma {:induction false} FirstPackets<E, D>(c: Codec<E, D>, e: E, msgs: seq<Msg>, k: nat)
    requires k <= |msgs|
    ensures Wire(Packets(c, e, msgs)[..k]) == Sent(c, e, msgs[..k])
    ensures Plains(Packets(c, e, msgs)[..k]) == Texts(msgs[..k])
  {
    assert msgs == msgs[..k] + msgs[k..];
    RunAppend(c, e, msgs[..k], msgs[k..]);
    assert Packets(c, e, msgs)[..k] == Packets(c, e, msgs[..k]);
    PlainsOfRun(c, e, msgs[..k]);
  }

  /** When all bytes have arrived, all payload bytes have been output: the only frame that can be left in the
      buffer is a last one of at most `least` bytes, which has no payload. */
  lemma {:induction false} DeliversAll<E(!new), D(!new)>(c: Codec<E, D>, e: E, d: D, msgs: seq<Msg>)
    requires Matched(c) && c.agree(e, d) && CanPackAll(c, e, msgs)
    requires c.least > 0 && forall e, m {:trigger c.frame(e, m)} :: c.canPack(e, m) ==>
               |c.frame(e, m)| >= c.least + |m.plain|
    ensures var r := Decode(c.step, d, Sent(c, e, msgs));
            r.verdict == More && Flatten(r.frames) == Flatten(Texts(msgs)) && |r.rest| <= c.least
  {
    var w := Sent(c, e, msgs);
    var packets := Packets(c, e, msgs);
    var k := Complete(c.least, packets, |w|);
    var r := Decode(c.step, d, w);
    assert InStep(c, e, msgs, k, w, r) by {
      LockStepDelivery(c, e, d, msgs, w);
    }
    PacketSizes(c, e, msgs);
    CompleteAll(c.least, packets);
    FirstPackets(c, e, msgs, k);
    LeftOver(packets, k, r.rest);
    FlattenAllButEmpty(msgs, k);
  }

  lemma {:induction false} LeftOver(packets: seq<Packet>, k: nat, rest: Bytes)
    requires k == |packets| || k == |packets| - 1
    requires Wire(packets[..k]) + rest == Wire(packets)
    ensures rest == if k == |packets| then [] else packets[k].wire
  {
    if k == |packets| {
      assert packets[..k] == packets;
    } else {
      assert packets == packets[..k] + [packets[k]];
      WireAppend(packets[..k], [packets[k]]);
      assert Wire([packets[k]]) == packets[k].wire;
      assert (Wire(packets[..k]) + rest)[|Wire(packets[..k])|..] == rest;
    }
  }

  lemma FlattenAllButEmpty(msgs: seq<Msg>, k: nat)
    requires k == |msgs| || (k == |msgs| - 1 && msgs[k].plain == [])
    ensures Flatten(Texts(msgs[..k])) == Flatten(Texts(msgs))
  {
    if k == |msgs| {
      assert msgs[..k] == msgs;
    } else {
      assert Texts(msgs) == Texts(msgs[..k]) + [[]];
      FlattenAppend(Texts(msgs[..k]), [[]]);
    }
  }

  lemma {:induction false} PacketSizes<E(!new), D(!new)>(c: Codec<E, D>, e: E, msgs: seq<Msg>)
    requires CanPackAll(c, e, msgs)
    requires forall e, m {:trigger c.frame(e, m)} :: c.canPack(e, m) ==> |c.frame(e, m)| >= c.least + |m.plain|
    ensures forall i {:trigger Packets(c, e, msgs)[i]} :: 0 <= i < |msgs| ==>
              |Packets(c, e, msgs)[i].wire| >= c.least + |msgs[i].plain|
    decreases |msgs|
  {
    if msgs != [] {
      PacketSizes(c, c.next(e, msgs[0]), msgs[1..]);
    }
  }
}
