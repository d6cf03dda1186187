/**
 * One direction of a connection as a state machine: the encoder packs messages whenever
 * it likes, and the network hands the decoder chunks of any size in order. The theorems hold for
 * every codec whose two ends match, and for every interleaving.
 */
module FrameLink {
  import opened ByteStrings
  import opened FrameLoop

  datatype Link<E, D> = Link(
    sender: E,
    sent: seq<Msg>,
    inFlight: Bytes,
    receiver: D,
    buf: Bytes,
    got: seq<Bytes>,
    verdict: Verdict)

  datatype Event = Send(msgs: seq<Msg>) | Deliver(n: nat)

  function Start<E, D>(e: E, d: D): Link<E, D> {
    Link(e, [], [], d, [], [], More)
  }

  predicate Enabled<E, D>(c: Codec<E, D>, l: Link<E, D>, ev: Event) {
    match ev
    case Send(msgs) => CanPackAll(c, l.sender, msgs)
    case Deliver(n) => n <= |l.inFlight|
  }

  function Apply<E, D>(c: Codec<E, D>, l: Link<E, D>, ev: Event): Link<E, D>
    requires Enabled(c, l, ev)
  {
    match ev
    case Send(msgs) =>
      l.(sender := AfterAll(c, l.sender, msgs), sent := l.sent + msgs, inFlight := l.inFlight + Sent(c, l.sender, msgs))
    case Deliver(n) =>
      if l.verdict != More then l.(inFlight := l.inFlight[n..])
      else
        var r := Decode(c.step, l.receiver, l.buf + l.inFlight[..n]);
        l.(inFlight := l.inFlight[n..], receiver := r.state, buf := r.rest, got := l.got + r.frames,
           verdict := r.verdict)
  }

  /** A run: every event is possible when it happens. */
  predicate IsRun<E, D>(c: Codec<E, D>, l: Link<E, D>, events: seq<Event>)
    decreases |events|
  {
    events == [] || (Enabled(c, l, events[0]) && IsRun(c, Apply(c, l, events[0]), events[1..]))
  }

  function RunLink<E, D>(c: Codec<E, D>, l: Link<E, D>, events: seq<Event>): Link<E, D>
    requires IsRun(c, l, events)
    decreases |events|
  {
    if events == [] then l else RunLink(c, Apply(c, l, events[0]), events[1..])
  }

  /** The decoder is where it would be had all bytes delivered so far come at once. */
  ghost predicate Consistent<E, D>(c: Codec<E, D>, e: E, d: D, l: Link<E, D>) {
    && CanPackAll(c, e, l.sent) && l.sender == AfterAll(c, e, l.sent)
    && |l.inFlight| <= |Sent(c, e, l.sent)|
    && var n := |Sent(c, e, l.sent)| - |l.inFlight|;
       && Sent(c, e, l.sent)[n..] == l.inFlight
       && Decode(c.step, d, Sent(c, e, l.sent)[..n]) == Decoded(l.got, l.receiver, l.buf, l.verdict)
  }

  lemma StartConsistent<E(!new), D(!new)>(c: Codec<E, D>, e: E, d: D)
    requires forall d :: c.step(d, []) == Stuck(More, d)
    ensures Consistent(c, e, d, Start(e, d))
  {
    assert c.step(d, []) == Stuck(More, d);
    assert Sent(c, e, [])[..0] == [];
  }

  lemma SendConsistent<E(!new), D(!new)>(c: Codec<E, D>, e: E, d: D, l: Link<E, D>, msgs: seq<Msg>)
    requires Consistent(c, e, d, l) && Enabled(c, l, Send(msgs))
    ensures Consistent(c, e, d, Apply(c, l, Send(msgs)))
  {
    hide Sent, AfterAll, CanPackAll, Decode;
    RunAppend(c, e, l.sent, msgs);
    SentAppend(c, e, l.sent, msgs);
    var a, b := Sent(c, e, l.sent), Sent(c, l.sender, msgs);
    var n := |a| - |l.inFlight|;
    assert (a + b)[..n] == a[..n];
    assert (a + b)[n..] == a[n..] + b;
  }

  lemma DeliverConsistent<E(!new), D(!new)>(c: Codec<E, D>, e: E, d: D, l: Link<E, D>, n: nat)
    requires Matched(c) && Consistent(c, e, d, l) && Enabled(c, l, Deliver(n)) && l.verdict == More
    ensures Consistent(c, e, d, Apply(c, l, Deliver(n)))
  {
    var all := Sent(c, e, l.sent);
    var m := |all| - |l.inFlight|;
    assert all[..m] + l.inFlight[..n] == all[..m + n];
    DecodeChunks(c.step, d, all[..m], l.inFlight[..n]);
    var r := Decode(c.step, l.receiver, l.buf + l.inFlight[..n]);
    assert all[m + n..] == l.inFlight[n..];
  }

  /** What a link guarantees at every moment: the decoder has not failed and has output exactly the payloads of the
      first k messages, with which it is in lock step; hence a prefix of everything sent, and all of it once nothing is
      in flight. */
  ghost predicate Delivering<E, D>(c: Codec<E, D>, e: E, l: Link<E, D>, k: nat) {
    && k <= |l.sent|
    && l.verdict == More
    && l.got == Texts(l.sent[..k])
    && c.agree(AfterAll(c, e, l.sent[..k]), l.receiver)
    && Flatten(l.got) <= Flatten(Texts(l.sent))
    && (l.inFlight == [] ==> Flatten(l.got) == Flatten(Texts(l.sent)) && |l.buf| <= c.least)
  }

  ghost predicate NoFrameTooShort<E(!new), D(!new)>(c: Codec<E, D>) {
    c.least > 0 && forall e, m {:trigger c.frame(e, m)} :: c.canPack(e, m) ==> |c.frame(e, m)| >= c.least + |m.plain|
  }

  lemma ConsistentDelivers<E(!new), D(!new)>(c: Codec<E, D>, e: E, d: D, l: Link<E, D>) returns (k: nat)
    requires Matched(c) && NoFrameTooShort(c) && c.agree(e, d) && Consistent(c, e, d, l)
    ensures Delivering(c, e, l, k)
  {
    var all := Sent(c, e, l.sent);
    var n := |all| - |l.inFlight|;
    k := Complete(c.least, Packets(c, e, l.sent), n);
    assert InStep(c, e, l.sent, k, all[..n], Decode(c.step, d, all[..n])) by {
      LockStepDelivery(c, e, d, l.sent, all[..n]);
    }
    FlattenPrefix(l.sent, k);
    if l.inFlight == [] {
      assert all[..n] == all;
      DeliversAll(c, e, d, l.sent);
    }
  }

  lemma FlattenPrefix(msgs: seq<Msg>, k: nat)
    requires k <= |msgs|
    ensures Flatten(Texts(msgs[..k])) <= Flatten(Texts(msgs))
  {
    assert Texts(msgs) == Texts(msgs[..k]) + Texts(msgs[k..]);
    FlattenAppend(Texts(msgs[..k]), Texts(msgs[k..]));
  }

  /** Every run keeps the link consistent. */
  lemma {:induction false} RunConsistent<E(!new), D(!new)>(c: Codec<E, D>, e: E, d: D, l: Link<E, D>,
                                                           events: seq<Event>)
    requires Matched(c) && NoFrameTooShort(c) && c.agree(e, d) && Consistent(c, e, d, l)
    requires IsRun(c, l, events)
    ensures Consistent(c, e, d, RunLink(c, l, events))
    decreases |events|
  {
    if events != [] {
      var k := ConsistentDelivers(c, e, d, l);
      match events[0] {
        case Send(msgs) => SendConsistent(c, e, d, l, msgs);
        case Deliver(n) => DeliverConsistent(c, e, d, l, n);
      }
      RunConsistent(c, e, d, Apply(c, l, events[0]), events[1..]);
    }
  }

  /** Delivery over whole runs: at the end of any run, whatever the order of writes and the sizes of chunks. */
  lemma RunDelivers<E(!new), D(!new)>(c: Codec<E, D>, e: E, d: D, events: seq<Event>) returns (k: nat)
    requires Matched(c) && NoFrameTooShort(c) && c.agree(e, d)
    requires forall d :: c.step(d, []) == Stuck(More, d)
    requires IsRun(c, Start(e, d), events)
    ensures Delivering(c, e, RunLink(c, Start(e, d), events), k)
  {
    StartConsistent(c, e, d);
    RunConsistent(c, e, d, Start(e, d), events);
    k := ConsistentDelivers(c, e, d, RunLink(c, Start(e, d), events));
  }

  /** The link after one event more. */
  lemma {:induction false} RunOneMore<E, D>(c: Codec<E, D>, l: Link<E, D>, events: seq<Event>, ev: Event)
    requires IsRun(c, l, events + [ev])
    ensures IsRun(c, l, events) && Enabled(c, RunLink(c, l, events), ev)
    ensures RunLink(c, l, events + [ev]) == Apply(c, RunLink(c, l, events), ev)
    decreases |events|
  {
    hide Apply, Enabled;
    if events == [] {
      assert events + [ev] == [ev] && [ev][1..] == [];
      assert RunLink(c, Apply(c, l, ev), []) == Apply(c, l, ev);
    } else {
      assert (events + [ev])[1..] == events[1..] + [ev];
      RunOneMore(c, Apply(c, l, events[0]), events[1..], ev);
    }
  }
}
