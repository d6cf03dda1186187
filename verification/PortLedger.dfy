/**
 * The accounting of one port: what its relays carried, what the database accepted, and the
 * three memories of db_transfer.py between them. Up and down are counted separately.
 */
module PortLedger {
  import opened Options

  datatype Flow = Flow(u: int, d: int)

  const ZERO := Flow(0, 0)

  function Add(a: Flow, b: Flow): Flow {
    Flow(a.u + b.u, a.d + b.d)
  }

  function Sub(a: Flow, b: Flow): Flow {
    Flow(a.u - b.u, a.d - b.d)
  }

  function Total(a: Flow): int {
    a.u + a.d
  }

  predicate Le(a: Flow, b: Flow) {
    a.u <= b.u && a.d <= b.d
  }

  function OrZero(f: Option<Flow>): Flow {
    if f.Some? then f.value else ZERO
  }

  /**
   * running: the counters of the port's relays, if it has any; lastGet: the counters seen by the last push;
   * lastUpdate: what has been accepted of them; forced: the port is to be settled by the next push.
   * The history: bytes carried and accepted in all, carried by relays that are gone (gone), and accepted before the
   * last reset (settled).
   */
  datatype Port = Port(running: Option<Flow>, lastGet: Option<Flow>, lastUpdate: Option<Flow>, forced: bool,
                       carried: Flow, accepted: Flow, gone: Flow, settled: Flow)

  const NEW_PORT := Port(None, None, None, false, ZERO, ZERO, ZERO, ZERO)

  // ----- what a push reports -----

  /** For a port to be settled: what the last push saw and the database has not accepted. */
  function ForcedDelta(lastGet: Option<Flow>, lastUpdate: Option<Flow>): Option<Flow> {
    if lastGet.Some? && lastUpdate.Some? then Some(Sub(lastGet.value, lastUpdate.value)) else None
  }

  /** For any other port: what its counters have gained since. */
  function LiveDelta(cur: Flow, lastUpdate: Option<Flow>): Option<Flow> {
    var delta := Sub(cur, OrZero(lastUpdate));
    if Total(delta) <= 0 then None else Some(delta)
  }

  function Delta(s: Port): Option<Flow> {
    if s.forced then ForcedDelta(s.lastGet, s.lastUpdate)
    else if s.running.Some? then LiveDelta(s.running.value, s.lastUpdate)
    else None
  }

  // ----- events -----

  /** The relays carry traffic. */
  function Carry(s: Port, f: Flow): Port {
    if s.running == None then s
    else s.(running := Some(Add(s.running.value, f)), carried := Add(s.carried, f))
  }

  /** A push, of whose report the database accepts this port's part, or not. */
  function Push(s: Port, acked: bool): Port {
    var given := if acked then Delta(s) else None;
    var accepted := Add(s.accepted, OrZero(given));
    if s.forced then
      s.(lastGet := None, lastUpdate := None, forced := false, accepted := accepted, settled := accepted)
    else
      s.(lastGet := s.running, lastUpdate := if given.Some? then Some(Add(OrZero(s.lastUpdate), given.value))
                                             else s.lastUpdate,
         accepted := accepted)
  }

  /** The server is stopped, because of its traffic or its configuration; the next push is to settle it. */
  function Stop(s: Port): Port {
    s.(running := None, forced := true, gone := s.carried)
  }

  /** A server starts with counters at zero. */
  function Start(s: Port): Port {
    if s.running.Some? then s else s.(running := Some(ZERO))
  }

  /** The user is gone: the server is stopped and the memories are cleared. Clearing a port that is to be settled
      raises an exception, because the source deletes from a set with the syntax for maps. */
  function Remove(s: Port): Port {
    var t := s.(running := None, gone := s.carried);
    if s.forced then t else t.(lastGet := None, lastUpdate := None, settled := s.accepted)
  }

  // ----- the invariant -----

  ghost predicate Sound(s: Port) {
    && Le(ZERO, OrZero(s.lastUpdate)) && Le(ZERO, OrZero(s.running)) && Le(ZERO, s.settled) && Le(ZERO, s.gone)
    && s.carried == Add(s.gone, OrZero(s.running))
    && s.accepted == Add(s.settled, OrZero(s.lastUpdate))
    && (s.lastGet.Some? && s.lastUpdate.Some? ==> Le(s.lastUpdate.value, s.lastGet.value))
    && if s.forced then
         && Le(Add(s.settled, OrZero(s.lastUpdate)), s.gone)
         && (s.lastGet.Some? && s.lastUpdate.Some? ==> Le(Add(s.settled, s.lastGet.value), s.gone))
       else
         && Le(s.settled, s.gone) && Le(OrZero(s.lastUpdate), OrZero(s.running))
         && (s.running == None ==> s.lastUpdate == None && s.lastGet == None)
         && (s.lastGet.Some? ==> Le(s.lastGet.value, OrZero(s.running)))
  }

  datatype Event = Carries(f: Flow) | Pushes(acked: bool) | Stops | Starts | Removes

  function After(s: Port, e: Event): Port {
    match e
    case Carries(f) => Carry(s, f)
    case Pushes(acked) => Push(s, acked)
    case Stops => Stop(s)
    case Starts => Start(s)
    case Removes => Remove(s)
  }

  /** Counters only grow. */
  predicate Possible(e: Event) {
    e.Carries? ==> Le(ZERO, e.f)
  }

  lemma AfterSound(s: Port, e: Event)
    requires Sound(s) && Possible(e)
    ensures Sound(After(s, e))
  {
    match e {
      case Carries(f) =>
      case Pushes(acked) => PushSound(s, acked);
      case Stops =>
      case Starts =>
      case Removes =>
    }
  }

  lemma PushSound(s: Port, acked: bool)
    requires Sound(s)
    ensures Sound(Push(s, acked))
  {
    if acked && !s.forced && s.running.Some? && Delta(s).Some? {
      assert Add(OrZero(s.lastUpdate), Delta(s).value) == s.running.value;
    }
  }

  /** What is reported is never negative, in either direction. */
  lemma DeltaPositive(s: Port)
    requires Sound(s)
    ensures Delta(s).Some? ==> Le(ZERO, Delta(s).value)
  {
  }

  function Run(s: Port, events: seq<Event>): Port
    decreases |events|
  {
    if events == [] then s else Run(After(s, events[0]), events[1..])
  }

  lemma {:induction false} RunSound(s: Port, events: seq<Event>)
    requires Sound(s) && forall i :: 0 <= i < |events| ==> Possible(events[i])
    ensures Sound(Run(s, events))
    decreases |events|
  {
    hide Sound, After;
    if events != [] {
      AfterSound(s, events[0]);
      RunSound(After(s, events[0]), events[1..]);
    }
  }

  /** Billing safety over whole runs: whatever traffic, pushes, acknowledgements, restarts and removals there are, the
      database has accepted no more than the relays carried, up and down; and since the last reset exactly
      lastUpdate. */
  lemma {:induction false} NeverOverbilled(events: seq<Event>)
    requires forall i :: 0 <= i < |events| ==> Possible(events[i])
    ensures var s := Run(NEW_PORT, events);
            && Le(s.accepted, s.carried)
            && s.accepted == Add(s.settled, OrZero(s.lastUpdate))
  {
    hide Run, Sound, Le;
    NewSound();
    RunSound(NEW_PORT, events);
    SoundMeans(Run(NEW_PORT, events));
  }

  lemma NewSound()
    ensures Sound(NEW_PORT)
  {
  }

  lemma SoundMeans(s: Port)
    requires Sound(s)
    ensures Le(s.accepted, s.carried) && s.accepted == Add(s.settled, OrZero(s.lastUpdate))
  {
    if s.forced {
      assert Le(s.accepted, s.gone);
    } else {
      assert s.accepted.u <= s.gone.u + OrZero(s.running).u;
    }
  }

  /** Nothing is lost while a server keeps running: once everything is pushed and accepted, what the database has not
      accepted is exactly what it had not accepted when the server started. */
  lemma PushCatchesUp(s: Port)
    requires Sound(s) && !s.forced && s.running.Some?
    ensures var t := Push(s, true);
            Sub(t.carried, t.accepted) == Sub(s.gone, s.settled)
  {
    LiveDeltaExact(s.running.value, s.lastUpdate);
    hide Sound, LiveDelta, Le;
  }

  /** What a push does not report of a running port is nothing. */
  lemma LiveDeltaExact(cur: Flow, lastUpdate: Option<Flow>)
    requires Le(OrZero(lastUpdate), cur)
    ensures OrZero(LiveDelta(cur, lastUpdate)) == Sub(cur, OrZero(lastUpdate))
  {
  }

  // ----- what is counted, and what is lost -----

  /** What the relays of a port carry in a run: the traffic that comes while its server runs. */
  function Traffic(running: bool, events: seq<Event>): Flow
    decreases |events|
  {
    if events == [] then ZERO
    else
      match events[0]
      case Carries(f) => Add(if running then f else ZERO, Traffic(running, events[1..]))
      case Pushes(_) => Traffic(running, events[1..])
      case Starts => Traffic(true, events[1..])
      case _ => Traffic(false, events[1..])
  }

  /** All of it is counted. */
  lemma {:induction false} CountsTraffic(s: Port, events: seq<Event>)
    ensures Run(s, events).carried == Add(s.carried, Traffic(s.running.Some?, events))
    decreases |events|
  {
    if events != [] {
      CountsTraffic(After(s, events[0]), events[1..]);
    }
  }

  /** An accepted push adds what a running server has carried beyond what was accepted of it; and of a port to be
      settled what the last push saw beyond that, if anything was ever accepted. A push that is not accepted adds
      nothing. */
  lemma PushAccepts(s: Port, acked: bool)
    requires Sound(s)
    ensures Push(s, acked).accepted
         == if !acked then s.accepted
            else if s.forced then
              (if s.lastGet.Some? && s.lastUpdate.Some? then
                 Flow(s.accepted.u + s.lastGet.value.u - s.lastUpdate.value.u,
                      s.accepted.d + s.lastGet.value.d - s.lastUpdate.value.d)
               else s.accepted)
            else Flow(s.settled.u + OrZero(s.running).u, s.settled.d + OrZero(s.running).d)
    ensures var t := Push(s, acked);
            && !t.forced && t.carried == s.carried && t.running == s.running
            && t.lastGet == (if s.forced then None else s.running)
            && (s.forced ==> t.lastUpdate == None)
  {
  }

  /** Nothing is reported of a running server that has carried nothing since what was accepted. */
  lemma ReportedWhen(s: Port)
    requires Sound(s) && !s.forced && s.running.Some?
    ensures Delta(s) == None <==> s.running.value == OrZero(s.lastUpdate)
  {
  }

  /** Stopping a server and settling it loses the traffic since the last push; and if nothing was accepted since the
      server started, all of its traffic. */
  lemma StopLoses(s: Port)
    requires Sound(s) && !s.forced && s.running.Some?
    ensures var t, kept := Push(Stop(s), true), if s.lastUpdate.Some? && s.lastGet.Some? then s.lastGet.value
                                                else OrZero(s.lastUpdate);
            && t.running == None && !t.forced
            && Sub(t.carried, t.accepted) == Add(Sub(s.gone, s.settled), Sub(s.running.value, kept))
  {
  }

  /** Removing a port loses what was not accepted; and on a port to be settled the exception leaves the memories. */
  lemma RemoveLoses(s: Port)
    ensures var t := Remove(s);
            && t.running == None && t.accepted == s.accepted && t.carried == s.carried && t.forced == s.forced
            && t.lastGet == (if s.forced then s.lastGet else None)
            && t.lastUpdate == (if s.forced then s.lastUpdate else None)
  {
  }

  /** A started server counts from zero, unless it runs already. */
  lemma StartCounts(s: Port)
    ensures Start(s).running == if s.running == None then Some(ZERO) else s.running
    ensures Start(s) == s.(running := Start(s).running)
  {
  }
}
