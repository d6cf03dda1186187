/**
 * The rate limit of tcprelay.py: a counter that drains at the allowed speed, asked before each read
 * and increased after it. Two of them guard every read, one of the connection and one of the user.
 */
module RateLimit {

  /** speed is in bytes a second; none of it is limited when it is not positive. */
  datatype Meter = Meter(speed: real, last: real, sum: real)

  function Max(a: real, b: real): real {
    if a < b then b else a
  }

  /** The bytes allowed in some time. */
  function Allowed(speed: real, time: real): real {
    time * speed
  }

  /** What has drained until now. */
  function Drained(m: Meter, now: real): Meter {
    m.(last := now, sum := Max(0.0, m.sum - Allowed(m.speed, now - m.last)))
  }

  function Exceeds(m: Meter, now: real): bool {
    m.speed > 0.0 && Drained(m, now).sum >= m.speed
  }

  /** isExceed changes the meter too. */
  function Asked(m: Meter, now: real): Meter {
    if m.speed > 0.0 then Drained(m, now) else m
  }

  function Added(m: Meter, n: nat, now: real): Meter {
    if m.speed > 0.0 then
      var d := Drained(m, now);
      d.(sum := d.sum + n as real)
    else m
  }

  /** What happens to one meter: it is asked at a time; and when it agrees and read says that a read follows, that
      read's bytes are added, not before it was asked. */
  datatype Event = Event(ask: real, read: bool, add: real, n: nat)

  predicate Reads(m: Meter, e: Event) {
    e.read && !Exceeds(m, e.ask)
  }

  function After(m: Meter, e: Event): Meter {
    if Reads(m, e) then Added(Asked(m, e.ask), e.n, e.add) else Asked(m, e.ask)
  }

  function Run(m: Meter, events: seq<Event>): Meter
    decreases |events|
  {
    if events == [] then m else Run(After(m, events[0]), events[1..])
  }

  /** The bytes read. */
  function Bytes(m: Meter, events: seq<Event>): nat
    decreases |events|
  {
    if events == [] then 0
    else (if Reads(m, events[0]) then events[0].n else 0) + Bytes(After(m, events[0]), events[1..])
  }

  /** The clock does not run backwards, and no read brings more than most bytes. */
  ghost predicate InOrder(now: real, events: seq<Event>, most: nat)
    decreases |events|
  {
    events == [] ||
    (now <= events[0].ask <= events[0].add && events[0].n <= most
     && InOrder(if events[0].read then events[0].add else events[0].ask, events[1..], most))
  }

  /** The time up to which the meter has been kept. */
  function Clock(now: real, events: seq<Event>): real
    decreases |events|
  {
    if events == [] then now
    else Clock(if events[0].read then events[0].add else events[0].ask, events[1..])
  }

  ghost predicate Kept(m: Meter, now: real) {
    m.speed > 0.0 && m.last <= now && 0.0 <= m.sum
  }

  // ----- when a meter agrees -----

  /** A meter agrees to a read if it is not limited, or if it holds less than what drains in one second more than the
      time since it was last kept. */
  lemma AgreesWhen(m: Meter, now: real)
    ensures !Exceeds(m, now) <==> m.speed <= 0.0 || m.sum < m.speed * (now - m.last + 1.0)
  {
    assert m.speed * (now - m.last + 1.0) == Allowed(m.speed, now - m.last) + m.speed;
  }

  /** So a meter that nobody reads through agrees again, when it has drained. */
  lemma AgreesAgain(m: Meter, now: real)
    requires m.speed > 0.0 && m.sum <= m.speed * (now - m.last)
    ensures !Exceeds(m, now) && Asked(m, now) == Meter(m.speed, now, 0.0)
  {
    AgreesWhen(m, now);
    assert m.speed * (now - m.last + 1.0) == m.speed * (now - m.last) + m.speed;
  }

  /** What a read of n bytes leaves in a limited meter: they come to what has not drained; and without a limit nothing
      is kept. */
  lemma ReadLeaves(m: Meter, n: nat, now: real)
    ensures var t, left := Added(m, n, now), m.sum - m.speed * (now - m.last);
            if m.speed <= 0.0 then t == m && Asked(m, now) == m
            else
              && t == Meter(m.speed, now, (if left > 0.0 then left else 0.0) + n as real)
              && Asked(m, now) == Meter(m.speed, now, if left > 0.0 then left else 0.0)
  {
  }

  /** The meter after one event more. */
  lemma {:induction false} RunOneMore(m: Meter, events: seq<Event>, e: Event)
    ensures Run(m, events + [e]) == After(Run(m, events), e)
    decreases |events|
  {
    hide After;
    if events == [] {
      assert events + [e] == [e] && [e][1..] == [];
      assert Run(After(m, e), []) == After(m, e);
    } else {
      assert (events + [e])[1..] == events[1..] + [e];
      RunOneMore(After(m, events[0]), events[1..], e);
    }
  }

  // ----- arithmetic -----

  lemma SplitTime(speed: real, a: real, b: real, c: real)
    ensures Allowed(speed, c - a) == Allowed(speed, b - a) + Allowed(speed, c - b)
  {
  }

  lemma LongerTime(speed: real, a: real, b: real)
    requires speed >= 0.0 && a <= b
    ensures Allowed(speed, a) <= Allowed(speed, b)
  {
    assert (b - a) * speed >= 0.0;
  }

  lemma NoTime(speed: real)
    ensures Allowed(speed, 0.0) == 0.0
  {
  }

  lemma AddBytes(a: nat, b: nat)
    ensures (a + b) as real == a as real + b as real
  {
  }

  /** Two stretches of a run make one. */
  lemma JoinBalances(n1: real, n2: real, s0: real, s1: real, s2: real, d1: real, d2: real, d: real)
    requires n1 <= s1 - s0 + d1 && n2 <= s2 - s1 + d2 && d == d1 + d2
    ensures n1 + n2 <= s2 - s0 + d
  {
  }

  lemma FinalBound(n1: real, n2: real, s1: real, s2: real, drained: real, allowed: real, cap: real)
    requires n1 <= s1 && n2 <= s2 - s1 + drained && drained <= allowed && s2 <= cap
    ensures n1 + n2 <= allowed + cap
  {
  }

  // ----- the bound -----

  /** One event: the counter has taken in the bytes read, and has lost no more than the time allows. */
  lemma EventBalance(m: Meter, e: Event, now: real, most: nat)
    requires Kept(m, now) && now <= e.ask <= e.add && e.n <= most
    ensures var t := After(m, e);
            && t.speed == m.speed && Kept(t, if e.read then e.add else e.ask) && m.last <= t.last
            && (if Reads(m, e) then e.n as real else 0.0) <= t.sum - m.sum + Allowed(m.speed, t.last - m.last)
            && (Reads(m, e) ==> t.last == e.add && e.n as real <= t.sum <= m.speed + most as real)
            && (!Reads(m, e) ==> t.sum <= m.sum)
  {
    NoTime(m.speed);
    LongerTime(m.speed, 0.0, e.ask - m.last);
    LongerTime(m.speed, 0.0, e.add - e.ask);
    SplitTime(m.speed, m.last, e.ask, e.add);
    hide Allowed;
  }

  /** Over any run the bytes read are at most what the counter has gained and what has drained. */
  lemma {:induction false} RunBalance(m: Meter, events: seq<Event>, now: real, most: nat)
    requires Kept(m, now) && InOrder(now, events, most)
    ensures var t := Run(m, events);
            && t.speed == m.speed && Kept(t, Clock(now, events)) && m.last <= t.last
            && Bytes(m, events) as real <= t.sum - m.sum + Allowed(m.speed, t.last - m.last)
            && t.sum <= Max(m.sum, m.speed + most as real)
    decreases |events|
  {
    hide After, Reads, Kept, Allowed;
    NoTime(m.speed);
    if events != [] {
      var e, rest := events[0], events[1..];
      var t := After(m, e);
      EventBalance(m, e, now, most);
      RunBalance(t, rest, if e.read then e.add else e.ask, most);
      var end := Run(t, rest);
      SplitTime(m.speed, m.last, t.last, end.last);
      var n := if Reads(m, e) then e.n else 0;
      AddBytes(n, Bytes(t, rest));
      JoinBalances(n as real, Bytes(t, rest) as real, m.sum, t.sum, end.sum,
                   Allowed(m.speed, t.last - m.last), Allowed(m.speed, end.last - t.last),
                   Allowed(m.speed, end.last - m.last));
      assert Bytes(m, events) == (if Reads(m, e) then e.n else 0) + Bytes(t, rest);
      assert Run(m, events) == end && InOrder(if e.read then e.add else e.ask, rest, most);
      hide Run, Bytes, InOrder;
    }
  }

  lemma {:induction false} ClockInWindow(now: real, events: seq<Event>, most: nat, end: real)
    requires InOrder(now, events, most) && now <= end
    requires forall i :: 0 <= i < |events| ==> events[i].add <= end
    ensures Clock(now, events) <= end
    decreases |events|
  {
    if events != [] {
      ClockInWindow(if events[0].read then events[0].add else events[0].ask, events[1..], most, end);
    }
  }

  /** The rate bound: whatever happened before, in any window of time the bytes read are at most the speed times the
      length of the window, and the speed (one second's worth), and one read. */
  lemma {:induction false} WindowBound(m: Meter, events: seq<Event>, now: real, most: nat, start: real, end: real)
    requires Kept(m, now) && InOrder(now, events, most) && start <= end
    requires forall i :: 0 <= i < |events| ==> start <= events[i].add <= end
    ensures Bytes(m, events) as real <= Allowed(m.speed, end - start) + m.speed + most as real
    decreases |events|
  {
    hide After, Reads, Kept, Max, Allowed;
    NoTime(m.speed);
    KeptSpeed(m, now);
    LongerTime(m.speed, 0.0, end - start);
    if events != [] {
      var e := events[0];
      var t := After(m, e);
      var now' := if e.read then e.add else e.ask;
      EventBalance(m, e, now, most);
      if Reads(m, e) {
        AfterFirstRead(m, t, e, events[1..], now', most, start, end);
      } else {
        WindowBound(t, events[1..], now', most, start, end);
      }
    }
  }

  lemma KeptSpeed(m: Meter, now: real)
    requires Kept(m, now)
    ensures m.speed > 0.0
  {
  }

  /** The counter after the first read of the window accounts for that read, and at the end is no more than a second's
      worth and one read. */
  lemma {:induction false} AfterFirstRead(m: Meter, t: Meter, e: Event, rest: seq<Event>, now: real, most: nat,
                                          start: real, end: real)
    requires t.speed == m.speed && Kept(t, now) && InOrder(now, rest, most) && now <= end
    requires t.last == e.add && start <= e.add <= end
    requires e.n as real <= t.sum <= m.speed + most as real
    requires forall i :: 0 <= i < |rest| ==> rest[i].add <= end
    ensures (e.n + Bytes(t, rest)) as real <= Allowed(m.speed, end - start) + m.speed + most as real
  {
    hide Run, Bytes, InOrder, Allowed;
    RunBalance(t, rest, now, most);
    ClockInWindow(now, rest, most, end);
    var last := Run(t, rest);
    LongerTime(m.speed, last.last - t.last, end - start);
    AddBytes(e.n, Bytes(t, rest));
    FinalBound(e.n as real, Bytes(t, rest) as real, t.sum, last.sum, Allowed(m.speed, last.last - t.last),
               Allowed(m.speed, end - start), m.speed + most as real);
  }

  lemma {:induction false} RunAppend(m: Meter, a: seq<Event>, b: seq<Event>)
    ensures Run(m, a + b) == Run(Run(m, a), b) && Bytes(m, a + b) == Bytes(m, a) + Bytes(Run(m, a), b)
    decreases |a|
  {
    if a == [] {
      assert a + b == b;
    } else {
      assert (a + b)[1..] == a[1..] + b;
      RunAppend(After(m, a[0]), a[1..], b);
    }
  }

  lemma {:induction false} OrderAppend(now: real, a: seq<Event>, b: seq<Event>, most: nat)
    requires InOrder(now, a + b, most)
    ensures InOrder(now, a, most) && InOrder(Clock(now, a), b, most)
    decreases |a|
  {
    if a == [] {
      assert a + b == b;
    } else {
      assert (a + b)[1..] == a[1..] + b;
      OrderAppend(if a[0].read then a[0].add else a[0].ask, a[1..], b, most);
    }
  }

  /** Over whole runs: the bytes read in the window [start, end] of any run of a fresh meter. */
  lemma {:induction false} AnyWindow(speed: real, created: real, before: seq<Event>, inside: seq<Event>, most: nat,
                                     start: real, end: real)
    requires speed > 0.0 && InOrder(created, before + inside, most) && start <= end
    requires forall i :: 0 <= i < |inside| ==> start <= inside[i].add <= end
    ensures var m := Meter(speed, created, 0.0);
            (Bytes(m, before + inside) - Bytes(m, before)) as real <= Allowed(speed, end - start) + speed + most as real
  {
    hide InOrder, Run, Bytes, Allowed;
    var m := Meter(speed, created, 0.0);
    OrderAppend(created, before, inside, most);
    RunBalance(m, before, created, most);
    RunAppend(m, before, inside);
    WindowBound(Run(m, before), inside, Clock(created, before), most, start, end);
  }

  // ----- the object -----

  class SpeedTester {
    var maxSpeed: real
    var lastTime: real
    var sumLen: real

    function View(): Meter
      reads this
    {
      Meter(maxSpeed, lastTime, sumLen)
    }

    constructor (speed: real, now: real)
      ensures View() == Meter(speed * 1024.0, now, 0.0)
    {
      maxSpeed, lastTime, sumLen := speed * 1024.0, now, 0.0;
    }

    method UpdateLimit(speed: real)
      modifies this`maxSpeed
      ensures View() == old(View()).(speed := speed * 1024.0)
    {
      maxSpeed := speed * 1024.0;
    }

    method Add(dataLen: nat, now: real)
      modifies this
      ensures View() == Added(old(View()), dataLen, now)
    {
      if maxSpeed > 0.0 {
        sumLen := sumLen - (now - lastTime) * maxSpeed;
        if sumLen < 0.0 {
          sumLen := 0.0;
        }
        lastTime := now;
        sumLen := sumLen + dataLen as real;
      }
    }

    method IsExceed(now: real) returns (r: bool)
      modifies this
      ensures View() == Asked(old(View()), now) && r == Exceeds(old(View()), now)
    {
      if maxSpeed > 0.0 {
        sumLen := sumLen - (now - lastTime) * maxSpeed;
        if sumLen < 0.0 {
          sumLen := 0.0;
        }
        lastTime := now;
        return sumLen >= maxSpeed;
      }
      return false;
    }
  }

  /** A readable socket: both meters are asked, the user's only when the connection's agrees; then it is read, and the
      n bytes are added to both, unless there were none. The times are those of the calls, in order. For each meter
      this is an event, or nothing at all. */
  method HandleReadable(connection: SpeedTester, user: SpeedTester, n: nat, t1: real, t2: real, t3: real, t4: real)
    returns (ok: bool)
    requires connection != user
    modifies connection, user
    ensures ok == (!Exceeds(old(connection.View()), t1) && !Exceeds(old(user.View()), t2))
    ensures connection.View() == After(old(connection.View()), Event(t1, ok && n > 0, t3, n))
    ensures user.View() == if Exceeds(old(connection.View()), t1) then old(user.View())
                           else After(old(user.View()), Event(t2, ok && n > 0, t4, n))
  {
    hide Drained, Exceeds, Asked, Added;
    ok := false;
    var exceeded := connection.IsExceed(t1);
    if !exceeded {
      exceeded := user.IsExceed(t2);
      if !exceeded {
        ok := true;
        if n > 0 {
          connection.Add(n, t3);
          user.Add(n, t4);
        }
      }
    }
  }
}
