/**
 * Collecting the traffic of all ports and pushing it to the database: the server pool with its four kinds of
 * relays, and the maps of TransferBase. Every method does to every port what the transition of
 * PortLedger does. Ports with a multi-user relay are not part of this model.
 */
module Billing {
  import opened Options
  import opened PortLedger

  type PortNumber = int
  type Flows = map<PortNumber, Flow>

  function Get(m: Flows, p: PortNumber): Option<Flow> {
    if p in m then Some(m[p]) else None
  }

  lemma SomeElement(s: set<PortNumber>)
    ensures s == {} || exists x :: x in s
  {
    if forall x :: x !in s {
      assert s <= {};
    }
  }

  /** Some element, as the iterator of a dictionary gives the next key. */
  method Pick(s: set<PortNumber>) returns (p: PortNumber)
    requires s != {}
    ensures p in s
  {
    SomeElement(s);
    p :| p in s;
  }

  // ----- the server pool -----

  /** The counters of the four relays: TCP and UDP over IPv4 and IPv6. */
  datatype Relays = Relays(tcp: Flows, udp: Flows, tcp6: Flows, udp6: Flows)

  function PortsOf(r: Relays): set<PortNumber> {
    r.tcp.Keys + r.udp.Keys + r.tcp6.Keys + r.udp6.Keys
  }

  datatype Kind = Tcp | Udp | Tcp6 | Udp6

  function RelaysOf(r: Relays, k: Kind): Flows {
    match k
    case Tcp => r.tcp
    case Udp => r.udp
    case Tcp6 => r.tcp6
    case Udp6 => r.udp6
  }

  /** The counters of one kind of relay, zero if there is none. */
  function Part(r: Relays, k: Kind, p: PortNumber): Flow {
    OrZero(Get(RelaysOf(r, k), p))
  }

  /** The sum of a port's counters, if it has any relay. */
  function CountersOf(r: Relays, p: PortNumber): Option<Flow> {
    if p in PortsOf(r) then
      Some(Sum(Part(r, Tcp, p), Part(r, Udp, p), Part(r, Tcp6, p), Part(r, Udp6, p)))
    else None
  }

  function Sum(a: Flow, b: Flow, c: Flow, d: Flow): Flow {
    Add(Add(Add(a, b), c), d)
  }

  lemma SumGrows(a: Flow, b: Flow, c: Flow, d: Flow, f: Flow)
    ensures var s := Add(Sum(a, b, c, d), f);
            Sum(Add(a, f), b, c, d) == s && Sum(a, Add(b, f), c, d) == s && Sum(a, b, Add(c, f), d) == s
              && Sum(a, b, c, Add(d, f)) == s
  {
  }

  function WithoutPort(r: Relays, p: PortNumber): Relays {
    Relays(r.tcp - {p}, r.udp - {p}, r.tcp6 - {p}, r.udp6 - {p})
  }

  lemma WithoutPortCounters(r: Relays, port: PortNumber, p: PortNumber)
    ensures CountersOf(WithoutPort(r, port), p) == if p == port then None else CountersOf(r, p)
  {
    hide Sum;
    var t := WithoutPort(r, port);
    assert p in PortsOf(t) <==> p in PortsOf(r) && p != port;
    if p != port {
      assert Get(t.tcp, p) == Get(r.tcp, p) && Get(t.udp, p) == Get(r.udp, p);
      assert Get(t.tcp6, p) == Get(r.tcp6, p) && Get(t.udp6, p) == Get(r.udp6, p);
    }
  }

  function Started(r: Relays, p: PortNumber, v4: bool, v6: bool): Relays {
    Relays(if v4 then r.tcp[p := ZERO] else r.tcp, if v4 then r.udp[p := ZERO] else r.udp,
           if v6 then r.tcp6[p := ZERO] else r.tcp6, if v6 then r.udp6[p := ZERO] else r.udp6)
  }

  lemma StartedCounters(r: Relays, port: PortNumber, v4: bool, v6: bool, p: PortNumber)
    requires port !in PortsOf(r) && (v4 || v6)
    ensures CountersOf(Started(r, port, v4, v6), p) == if p == port then Some(ZERO) else CountersOf(r, p)
  {
    var t := Started(r, port, v4, v6);
    assert p in PortsOf(t) <==> p in PortsOf(r) || p == port;
    if p != port {
      hide Sum;
      assert Get(t.tcp, p) == Get(r.tcp, p) && Get(t.udp, p) == Get(r.udp, p);
      assert Get(t.tcp6, p) == Get(r.tcp6, p) && Get(t.udp6, p) == Get(r.udp6, p);
    } else {
      assert OrZero(Get(t.tcp, p)) == ZERO && OrZero(Get(t.udp, p)) == ZERO;
      assert OrZero(Get(t.tcp6, p)) == ZERO && OrZero(Get(t.udp6, p)) == ZERO;
    }
  }

  /** A new server has relays of just the kinds it is configured for, and no other port gets or loses one. */
  lemma StartedRelays(r: Relays, port: PortNumber, v4: bool, v6: bool, p: PortNumber, k: Kind)
    requires port !in PortsOf(r)
    ensures p in RelaysOf(Started(r, port, v4, v6), k)
       <==> if p == port then (match k case Tcp => v4 case Udp => v4 case Tcp6 => v6 case Udp6 => v6)
            else p in RelaysOf(r, k)
  {
  }

  function Carried(r: Relays, k: Kind, p: PortNumber, f: Flow): Relays
    requires p in RelaysOf(r, k)
  {
    var m := RelaysOf(r, k)[p := Add(RelaysOf(r, k)[p], f)];
    match k
    case Tcp => r.(tcp := m)
    case Udp => r.(udp := m)
    case Tcp6 => r.(tcp6 := m)
    case Udp6 => r.(udp6 := m)
  }

  lemma CarriedParts(r: Relays, k: Kind, port: PortNumber, f: Flow, p: PortNumber, j: Kind)
    requires port in RelaysOf(r, k)
    ensures Part(Carried(r, k, port, f), j, p) == if j == k && p == port then Add(Part(r, j, p), f) else Part(r, j, p)
    ensures PortsOf(Carried(r, k, port, f)) == PortsOf(r) && port in PortsOf(r)
  {
    hide Add;
  }

  lemma CarriedCounters(r: Relays, k: Kind, port: PortNumber, f: Flow, p: PortNumber)
    requires port in RelaysOf(r, k)
    ensures CountersOf(Carried(r, k, port, f), p) == if p == port then Some(Add(OrZero(CountersOf(r, p)), f))
                                                     else CountersOf(r, p)
  {
    hide Carried, Part, RelaysOf, Sum, Add, PortsOf;
    CarriedParts(r, k, port, f, p, Tcp);
    CarriedParts(r, k, port, f, p, Udp);
    CarriedParts(r, k, port, f, p, Tcp6);
    CarriedParts(r, k, port, f, p, Udp6);
    SumGrows(Part(r, Tcp, p), Part(r, Udp, p), Part(r, Tcp6, p), Part(r, Udp6, p), f);
  }

  class ServerPool {
    var tcp: Flows
    var udp: Flows
    var tcp6: Flows
    var udp6: Flows

    constructor ()
      ensures View() == Relays(map[], map[], map[], map[])
    {
      tcp, udp, tcp6, udp6 := map[], map[], map[], map[];
    }

    function View(): Relays
      reads this
    {
      Relays(tcp, udp, tcp6, udp6)
    }

    /** The traffic of a port over all its relays, or zeros if it has none. */
    method GetServerTransfer(port: PortNumber) returns (ret: Flow)
      ensures ret == OrZero(CountersOf(View(), port))
    {
      assert port !in PortsOf(View()) ==> port !in tcp && port !in udp && port !in tcp6 && port !in udp6;
      hide PortsOf;
      ret := ZERO;
      if port in tcp {
        ret := tcp[port];
      }
      assert ret == OrZero(Get(tcp, port));
      if port in udp {
        ret := Add(ret, udp[port]);
      }
      if port in tcp6 {
        ret := Add(ret, tcp6[port]);
      }
      if port in udp6 {
        ret := Add(ret, udp6[port]);
      }
    }

    /** One row per port that has a relay. */
    method GetServersTransfer() returns (ret: Flows)
      ensures forall p :: Get(ret, p) == CountersOf(View(), p)
    {
      hide Add;
      ghost var r := View();
      var todo := PortsOf(View());
      ret := map[];
      while todo != {}
        invariant todo <= PortsOf(r)
        invariant forall p :: Get(ret, p) == if p in todo then None else CountersOf(r, p)
        decreases |todo|
      {
        var port := Pick(todo);
        var row := GetServerTransfer(port);
        ret := ret[port := row];
        todo := todo - {port};
      }
    }

    /** A new server has relays of its own for each address family it is configured for. */
    method NewServer(port: PortNumber, v4: bool, v6: bool)
      requires port !in PortsOf(View()) && (v4 || v6)
      modifies this
      ensures View() == Started(old(View()), port, v4, v6)
    {
      if v6 {
        tcp6 := tcp6[port := ZERO];
        udp6 := udp6[port := ZERO];
      }
      if v4 {
        tcp := tcp[port := ZERO];
        udp := udp[port := ZERO];
      }
    }

    /** Stopping a server takes all its relays, with their counters, away. */
    method CbDelServer(port: PortNumber)
      modifies this
      ensures View() == WithoutPort(old(View()), port)
    {
      tcp, udp := tcp - {port}, udp - {port};
      tcp6, udp6 := tcp6 - {port}, udp6 - {port};
    }

    /** add_transfer_u and add_transfer_d of one of the relays. */
    method AddTransfer(k: Kind, port: PortNumber, f: Flow)
      requires port in RelaysOf(View(), k)
      modifies this
      ensures View() == Carried(old(View()), k, port, f)
    {
      match k {
        case Tcp => tcp := tcp[port := Add(tcp[port], f)];
        case Udp => udp := udp[port := Add(udp[port], f)];
        case Tcp6 => tcp6 := tcp6[port := Add(tcp6[port], f)];
        case Udp6 => udp6 := udp6[port := Add(udp6[port], f)];
      }
    }
  }

  // ----- the parts of a push -----

  /** Settled ports: what the last push saw and the database has not accepted. */
  method ForcedDeltas(force: set<PortNumber>, lastGet: Flows, lastUpdate: Flows) returns (dt: Flows)
    ensures forall p :: Get(dt, p) == if p in force then ForcedDelta(Get(lastGet, p), Get(lastUpdate, p)) else None
  {
    dt := map[];
    var todo := force;
    while todo != {}
      invariant todo <= force
      invariant forall p :: Get(dt, p) == if p in force && p !in todo
                                          then ForcedDelta(Get(lastGet, p), Get(lastUpdate, p)) else None
      decreases |todo|
    {
      var id := Pick(todo);
      if id in lastGet && id in lastUpdate {
        dt := dt[id := Sub(lastGet[id], lastUpdate[id])];
      }
      todo := todo - {id};
    }
  }

  /** The report of a push, for every port. */
  function Reported(p: PortNumber, curr: Flows, force: set<PortNumber>, lastGet: Flows, lastUpdate: Flows)
    : Option<Flow> {
    if p in force then ForcedDelta(Get(lastGet, p), Get(lastUpdate, p))
    else if p in curr then LiveDelta(curr[p], Get(lastUpdate, p))
    else None
  }

  /** All other ports: what their counters have gained. */
  method Deltas(curr: Flows, force: set<PortNumber>, lastGet: Flows, lastUpdate: Flows) returns (dt: Flows)
    ensures forall p :: Get(dt, p) == Reported(p, curr, force, lastGet, lastUpdate)
  {
    dt := ForcedDeltas(force, lastGet, lastUpdate);
    var todo := curr.Keys;
    while todo != {}
      invariant todo <= curr.Keys
      invariant forall p :: Get(dt, p) == if p in todo && p !in force then None
                                          else Reported(p, curr, force, lastGet, lastUpdate)
      decreases |todo|
    {
      var id := Pick(todo);
      if id !in force {
        if id in lastUpdate {
          if curr[id].u + curr[id].d - lastUpdate[id].u - lastUpdate[id].d > 0 {
            dt := dt[id := Flow(curr[id].u - lastUpdate[id].u, curr[id].d - lastUpdate[id].d)];
          }
        } else if curr[id].u + curr[id].d > 0 {
          dt := dt[id := Flow(curr[id].u, curr[id].d)];
        }
      }
      todo := todo - {id};
    }
  }

  /** The accepted parts are added to what was accepted before, except for settled ports. */
  method Accept(update: Flows, force: set<PortNumber>, lastUpdate: Flows) returns (next: Flows)
    ensures forall p :: Get(next, p) == if p in update && p !in force
                                        then Some(Add(OrZero(Get(lastUpdate, p)), update[p])) else Get(lastUpdate, p)
  {
    next := lastUpdate;
    var todo := update.Keys;
    while todo != {}
      invariant todo <= update.Keys
      invariant forall p :: Get(next, p) == if p in update && p !in todo && p !in force
                                            then Some(Add(OrZero(Get(lastUpdate, p)), update[p]))
                                            else Get(lastUpdate, p)
      decreases |todo|
    {
      var id := Pick(todo);
      if id !in force {
        var last := if id in next then next[id] else ZERO;
        next := next[id := Flow(last.u + update[id].u, last.d + update[id].d)];
      }
      todo := todo - {id};
    }
  }

  // ----- the transfer loop -----

  datatype Account = Account(carried: Flow, accepted: Flow, gone: Flow, settled: Flow)

  const NO_ACCOUNT := Account(ZERO, ZERO, ZERO, ZERO)

  function AccountOf(m: map<PortNumber, Account>, p: PortNumber): Account {
    if p in m then m[p] else NO_ACCOUNT
  }

  class TransferBase {
    const pool: ServerPool
    var lastGet: Flows
    var lastUpdate: Flows
    var force: set<PortNumber>
    var pullOk: bool
    ghost var accounts: map<PortNumber, Account>

    /** One port, as its ledger sees it. */
    ghost function At(p: PortNumber): Port
      reads this, pool
    {
      var a := AccountOf(accounts, p);
      Port(CountersOf(pool.View(), p), Get(lastGet, p), Get(lastUpdate, p), p in force, a.carried, a.accepted, a.gone,
           a.settled)
    }

    ghost predicate Valid()
      reads this, pool
    {
      forall p {:trigger At(p)} :: Sound(At(p))
    }

    constructor ()
      ensures Valid() && fresh(pool) && !pullOk && forall p :: At(p) == NEW_PORT
    {
      pool := new ServerPool();
      lastGet, lastUpdate, force, pullOk := map[], map[], {}, false;
      accounts := map[];
      new;
      forall p ensures At(p) == NEW_PORT {
      }
      NewSound();
    }

    /** The database's answer: it accepts the rows of some ports as they are. */
    static method UpdateAllUser(dt: Flows, acked: set<PortNumber>) returns (update: Flows)
      ensures update == map p | p in dt && p in acked :: dt[p]
    {
      update := map p | p in dt && p in acked :: dt[p];
    }

    /** acked: the ports whose rows the database accepts. Before the first pull nothing is pushed. */
    method PushDbAllUser(acked: set<PortNumber>)
      requires Valid()
      modifies this`lastGet, this`lastUpdate, this`force, this`accounts
      ensures Valid()
      ensures forall p :: At(p) == if pullOk then Push(old(At(p)), p in acked) else old(At(p))
    {
      hide Sound, Delta, Push, Reported, PushedAccount, CountersOf, AccountOf;
      if !pullOk {
        return;
      }
      ghost var relays := pool.View();
      var curr := pool.GetServersTransfer();
      var dt := Deltas(curr, force, lastGet, lastUpdate);
      var update := UpdateAllUser(dt, acked);
      var next := Accept(update, force, lastUpdate);
      accounts := PushedAccounts(accounts, force, update);
      lastUpdate := next - force;
      lastGet := curr - force;
      force := {};
      forall p
        ensures At(p) == Push(old(At(p)), p in acked) && Sound(At(p))
      {
        Acked(dt, acked, p);
        PushedPort(old(At(p)), p, curr, old(force), old(lastGet), old(lastUpdate), p in acked, Get(dt, p),
                   Get(update, p), next);
        PushSound(old(At(p)), p in acked);
      }
    }

    /** The effect of a ledger transition on one port, and nothing on others. */
    ghost method Book(port: PortNumber, s: Port)
      modifies this`accounts
      ensures accounts == old(accounts)[port := Account(s.carried, s.accepted, s.gone, s.settled)]
    {
      accounts := accounts[port := Account(s.carried, s.accepted, s.gone, s.settled)];
    }

    /** A server is stopped because of its configuration or its traffic. */
    method StopServer(port: PortNumber)
      requires Valid()
      modifies this`force, this`accounts, pool
      ensures Valid()
      ensures forall p :: At(p) == if p == port then Stop(old(At(p))) else old(At(p))
    {
      hide Sound, Add, CountersOf, WithoutPort;
      AfterSound(At(port), Stops);
      Book(port, Stop(At(port)));
      ghost var relays := pool.View();
      pool.CbDelServer(port);
      force := force + {port};
      forall p
        ensures At(p) == (if p == port then Stop(old(At(p))) else old(At(p))) && Sound(At(p))
      {
        WithoutPortCounters(relays, port, p);
      }
    }

    method StartServer(port: PortNumber, v4: bool, v6: bool)
      requires Valid() && port !in PortsOf(pool.View()) && (v4 || v6)
      modifies pool
      ensures Valid()
      ensures forall p :: At(p) == if p == port then Start(old(At(p))) else old(At(p))
    {
      hide Sound, Add, PortsOf, Started;
      AfterSound(At(port), Starts);
      ghost var relays := pool.View();
      pool.NewServer(port, v4, v6);
      forall p
        ensures At(p) == (if p == port then Start(old(At(p))) else old(At(p))) && Sound(At(p))
      {
        StartedCounters(relays, port, v4, v6, p);
      }
    }

    method CarryTraffic(k: Kind, port: PortNumber, f: Flow)
      requires Valid() && Le(ZERO, f) && port in RelaysOf(pool.View(), k)
      modifies this`accounts, pool
      ensures Valid()
      ensures forall p :: At(p) == if p == port then Carry(old(At(p)), f) else old(At(p))
    {
      hide Sound, Add, CountersOf, Carried;
      AfterSound(At(port), Carries(f));
      HasCounters(pool.View(), k, port);
      ghost var relays := pool.View();
      Book(port, Carry(At(port), f));
      pool.AddTransfer(k, port, f);
      forall p
        ensures At(p) == (if p == port then Carry(old(At(p)), f) else old(At(p))) && Sound(At(p))
      {
        CarriedCounters(relays, k, port, f, p);
      }
    }

    /** del d[k] on the two maps; false is the exception of deleting from a set in the same way. */
    method ClearCache(port: PortNumber) returns (ok: bool)
      modifies this`lastGet, this`lastUpdate
      ensures ok == (port !in force)
      ensures lastGet == (if ok then old(lastGet) - {port} else old(lastGet))
      ensures lastUpdate == (if ok then old(lastUpdate) - {port} else old(lastUpdate))
    {
      if port in force {
        return false;
      }
      lastGet := lastGet - {port};
      lastUpdate := lastUpdate - {port};
      return true;
    }

    /** The row of a port is gone; false is the exception of ClearCache. */
    method RemovePort(port: PortNumber) returns (ok: bool)
      requires Valid()
      modifies this`lastGet, this`lastUpdate, this`accounts, pool
      ensures Valid() && ok == (port !in force)
      ensures forall p :: At(p) == if p == port then Remove(old(At(p))) else old(At(p))
    {
      hide Sound, Add, CountersOf, WithoutPort;
      AfterSound(At(port), Removes);
      Book(port, Remove(At(port)));
      ghost var relays := pool.View();
      pool.CbDelServer(port);
      ok := ClearCache(port);
      forall p
        ensures At(p) == (if p == port then Remove(old(At(p))) else old(At(p))) && Sound(At(p))
      {
        WithoutPortCounters(relays, port, p);
      }
    }
  }

  lemma HasCounters(r: Relays, k: Kind, p: PortNumber)
    requires p in RelaysOf(r, k)
    ensures CountersOf(r, p).Some?
  {
  }

  function PushedAccount(a: Account, forced: bool, given: Option<Flow>): Account {
    var accepted := Add(a.accepted, OrZero(given));
    a.(accepted := accepted, settled := if forced then accepted else a.settled)
  }

  ghost function PushedAccounts(m: map<PortNumber, Account>, force: set<PortNumber>, update: Flows)
    : (r: map<PortNumber, Account>)
    ensures forall p :: AccountOf(r, p) == PushedAccount(AccountOf(m, p), p in force, Get(update, p))
  {
    map p | p in m.Keys + update.Keys :: PushedAccount(AccountOf(m, p), p in force, Get(update, p))
  }

  lemma Acked(dt: Flows, acked: set<PortNumber>, p: PortNumber)
    ensures Get(map q | q in dt && q in acked :: dt[q], p) == if p in acked then Get(dt, p) else None
  {
  }

  /** What a push makes of one port, in terms of the maps. */
  lemma PushedPort(s: Port, p: PortNumber, curr: Flows, force: set<PortNumber>, lastGet: Flows, lastUpdate: Flows,
                   acked: bool, delta: Option<Flow>, given: Option<Flow>, next: Flows)
    requires s.running == Get(curr, p) && s.lastGet == Get(lastGet, p) && s.lastUpdate == Get(lastUpdate, p)
             && s.forced == (p in force)
    requires delta == Reported(p, curr, force, lastGet, lastUpdate) && given == if acked then delta else None
    requires Get(next, p) == if given.Some? && p !in force then Some(Add(OrZero(Get(lastUpdate, p)), given.value))
                             else Get(lastUpdate, p)
    ensures var a := PushedAccount(Account(s.carried, s.accepted, s.gone, s.settled), s.forced, given);
            Push(s, acked)
            == Port(s.running, Get(curr - force, p), Get(next - force, p), false, a.carried, a.accepted, a.gone,
                    a.settled)
  {
    hide Add, ForcedDelta, LiveDelta;
    assert Delta(s) == delta;
    assert Get(curr - force, p) == if p in force then None else Get(curr, p);
    assert Get(next - force, p) == if p in force then None else Get(next, p);
  }
}
