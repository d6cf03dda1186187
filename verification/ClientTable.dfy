/**
 * The tables of clients that guard the greetings (obfs_auth_v2_data, obfs_auth_mu_data, obfs_auth_chain_data): a window
 * of connection ids per client, in a cache that every look-up reorders, and an eviction rule that does not always
 * delete the client it has just looked at. The files differ in when a client counts as active, which is the rule.
 */
module ClientTable {
  import opened OrderedDictionary
  import opened ReplayWindow

  /** A client's window, as the ids accepted in its epoch; ref counts its connections, where the rule does. */
  datatype Queue = Queue(enable: bool, last: real, ref: nat, epoch: Epoch)

  type Table = Ordered<int, Queue>

  const NO_CLIENTS: Table := Ordered([], map[])

  /** How long a client stays active without data. */
  function Lifetime(rule: Rule): real {
    match rule
    case Idle => IDLE
    case CountedIdle => COUNTED_IDLE
  }

  predicate Active(rule: Rule, q: Queue, now: real) {
    (rule == CountedIdle ==> q.ref > 0) && now - q.last < Lifetime(rule)
  }

  /** client_queue.insert; ClientQueue.InsertId is the windowed form. */
  function QueueInsert(rule: Rule, q: Queue, id: int, now: real): (bool, Queue) {
    if !q.enable then (false, q)
    else
      var (ok, e) := ReplayWindow.Insert(if Active(rule, q, now) then q.epoch else Epoch(id, []), id);
      (ok, Queue(true, now, q.ref + if ok && rule == CountedIdle then 1 else 0, e))
  }

  /** The client, with this window, comes last: looking it up moves it there. */
  function Stored(o: Table, c: int, q: Queue): Table {
    Ordered(Without(o.keys, c) + [c], o.vals[c := q])
  }

  function Touched(o: Table, c: int): Table
    requires c in o.vals
  {
    Stored(o, c, o.vals[c])
  }

  /** The window of a client that has just come. */
  function Newcomer(rule: Rule, id: int, now: real): Queue {
    Queue(true, now, if rule == CountedIdle then 1 else 0, Epoch(id, [id]))
  }

  /** A new client gets a window, which the id enters. */
  function Admitted(rule: Rule, o: Table, c: int, id: int, now: real): (bool, Table) {
    var (ok, q) := QueueInsert(rule, Queue(true, now, 0, Epoch(id, [])), id, now);
    (ok, Stored(o, c, q))
  }

  /** The client examined for eviction, and the one deleted: examining has moved the first client to the end. */
  function Examined(o: Table): int
    requires o.keys != []
  {
    o.keys[0]
  }

  function Evicted(o: Table): int
    requires o.keys != []
  {
    if |o.keys| > 1 then o.keys[1] else o.keys[0]
  }

  function Max(a: int, b: int): int {
    if a < b then b else a
  }

  /** A new client finds no room. */
  predicate Full(o: Table, max: int) {
    |o.keys| > 0 && |o.keys| >= max
  }

  /** The client examined is idle. */
  predicate Evicts(rule: Rule, o: Table, now: real) {
    o.keys != [] && Examined(o) in o.vals && !Active(rule, o.vals[Examined(o)], now)
  }

  /** The answer to a client and its id, and the clients afterwards. A known client is judged by its own window. A new
      one is taken in if there is room; otherwise the first client is looked up, and if it is idle, the client that is
      first after that is deleted. */
  function Inserted(rule: Rule, o: Table, max: int, c: int, id: int, now: real): (bool, Table) {
    if c in o.vals then
      var (ok, q) := QueueInsert(rule, o.vals[c], id, now);
      (ok, Stored(o, c, q))
    else if !Full(o, max) || Examined(o) !in o.vals then Admitted(rule, o, c, id, now)
    else
      var t := Touched(o, Examined(o));
      if Evicts(rule, o, now) then Admitted(rule, Delete(t, t.keys[0]), c, id, now) else (false, t)
  }

  /** Data of a client has come. */
  function Updated(o: Table, c: int, now: real): Table {
    if c in o.vals then Stored(o, c, o.vals[c].(last := now)) else o
  }

  function Released(q: Queue): Queue {
    q.(ref := if q.ref > 0 then q.ref - 1 else 0)
  }

  /** A connection of a client has ended. */
  function Removed(o: Table, c: int): Table {
    if c in o.vals then Stored(o, c, Released(o.vals[c])) else o
  }

  /** No window is ever disabled. */
  ghost predicate Good(o: Table) {
    WellFormed(o) && forall k :: k in o.vals ==> o.vals[k].enable
  }

  lemma NoneGood()
    ensures Good(NO_CLIENTS)
  {
  }

  // ----- what one step does -----

  lemma StoredGood(o: Table, c: int, q: Queue)
    requires Good(o) && q.enable
    ensures Good(Stored(o, c, q)) && Stored(o, c, q).vals == o.vals[c := q]
    ensures |Stored(o, c, q).keys| == |o.keys| + if c in o.vals then 0 else 1
  {
    WithoutMembers(o.keys, c);
    WithoutSize(o.keys, c);
    var rest := Without(o.keys, c);
    assert forall i, j :: 0 <= i < j < |rest + [c]| ==> (rest + [c])[i] != (rest + [c])[j];
  }

  lemma DeletedGood(o: Table, c: int)
    requires Good(o)
    ensures Good(Delete(o, c)) && |Delete(o, c).keys| == |o.keys| - if c in o.vals then 1 else 0
  {
    WithoutSize(o.keys, c);
    WithoutMembers(o.keys, c);
  }

  /** A new client is let in, with its id as the first of its window. */
  lemma AdmittedQueue(rule: Rule, o: Table, c: int, id: int, now: real)
    ensures var (ok, t) := Admitted(rule, o, c, id, now);
            && ok && c in t.vals
            && t == Stored(o, c, Newcomer(rule, id, now))
  {
    FreshAccepts(id);
    assert [] + [id] == [id];
  }

  /** After the first client is touched, the second is first. */
  lemma FirstAfterTest(o: Table)
    requires WellFormed(o) && o.keys != []
    ensures Examined(o) in o.vals && Evicted(o) in o.vals
    ensures Touched(o, Examined(o)).keys != [] && Touched(o, Examined(o)).keys[0] == Evicted(o)
  {
    assert Without(o.keys, o.keys[0]) == o.keys[1..];
  }

  lemma StaysEnabled(rule: Rule, q: Queue, id: int, now: real)
    ensures QueueInsert(rule, q, id, now).1.enable == q.enable
  {
  }

  /** Which clients are there after an insert, and with which windows. */
  lemma InsertedClients(rule: Rule, o: Table, max: int, c: int, id: int, now: real)
    requires Good(o)
    ensures var (ok, t) := Inserted(rule, o, max, c, id, now);
            && Good(t) && |t.keys| <= Max(|o.keys|, Max(max, 1))
            && (if c in o.vals then
                  var (ok', q) := QueueInsert(rule, o.vals[c], id, now);
                  ok == ok' && t.vals == o.vals[c := q]
                else if !Full(o, max) then ok && t.vals == o.vals[c := Newcomer(rule, id, now)]
                else
                  && Examined(o) in o.vals && Evicted(o) in o.vals && ok == Evicts(rule, o, now)
                  && t.vals == if ok then (o.vals - {Evicted(o)})[c := Newcomer(rule, id, now)] else o.vals)
  {
    hide WellFormed, Without, QueueInsert, Admitted, Stored;
    if c in o.vals {
      StaysEnabled(rule, o.vals[c], id, now);
      StoredGood(o, c, QueueInsert(rule, o.vals[c], id, now).1);
    } else if !Full(o, max) {
      AdmittedQueue(rule, o, c, id, now);
      StoredGood(o, c, Newcomer(rule, id, now));
    } else {
      FullInsert(rule, o, max, c, id, now);
    }
  }

  /** The case of a new client and a full table. */
  lemma FullInsert(rule: Rule, o: Table, max: int, c: int, id: int, now: real)
    requires Good(o) && c !in o.vals && Full(o, max)
    ensures var (ok, t) := Inserted(rule, o, max, c, id, now);
            && Good(t) && |t.keys| == |o.keys|
            && Examined(o) in o.vals && Evicted(o) in o.vals && ok == Evicts(rule, o, now)
            && t.vals == if ok then (o.vals - {Evicted(o)})[c := Newcomer(rule, id, now)] else o.vals
  {
    FirstAfterTest(o);
    var t := Touched(o, Examined(o));
    StoredGood(o, Examined(o), o.vals[Examined(o)]);
    assert t.vals == o.vals;
    hide WellFormed, Without, QueueInsert, Admitted, Stored, Touched;
    DeletedGood(t, Evicted(o));
    AdmittedQueue(rule, Delete(t, Evicted(o)), c, id, now);
    StoredGood(Delete(t, Evicted(o)), c, Newcomer(rule, id, now));
  }

  /** The answer: a known client is let in if it is idle or its window accepts the id, a new one if there is room or the
      client examined is idle. */
  predicate LetIn(rule: Rule, o: Table, max: int, c: int, id: int, now: real) {
    if c in o.vals then !Active(rule, o.vals[c], now) || Accepts(o.vals[c].epoch, id)
    else !Full(o, max) || Evicts(rule, o, now)
  }

  lemma AnswerIs(rule: Rule, o: Table, max: int, c: int, id: int, now: real)
    requires Good(o)
    ensures Inserted(rule, o, max, c, id, now).0 <==> LetIn(rule, o, max, c, id, now)
  {
    InsertedClients(rule, o, max, c, id, now);
    FreshAccepts(id);
  }

  /** The client deleted is the client examined if and only if it is the only one. */
  lemma EvictedIsExamined(o: Table)
    requires WellFormed(o) && o.keys != []
    ensures Evicted(o) == Examined(o) <==> |o.keys| == 1
  {
    assert |o.keys| > 1 ==> o.keys[0] != o.keys[1];
  }

  /** When an insert costs an active client its place, with everything remembered about its ids: exactly when a new
      client finds the table full and, of two clients at least, the first idle and the second active. */
  lemma ActiveEvictedWhen(rule: Rule, o: Table, max: int, c: int, id: int, now: real)
    requires Good(o)
    ensures (exists k :: k in o.vals && Active(rule, o.vals[k], now) && k !in Inserted(rule, o, max, c, id, now).1.vals)
       <==> c !in o.vals && Full(o, max) && |o.keys| >= 2
            && !Active(rule, o.vals[o.keys[0]], now) && Active(rule, o.vals[o.keys[1]], now)
  {
    hide Inserted, Active;
    InsertedClients(rule, o, max, c, id, now);
    if c !in o.vals && Full(o, max) {
      EvictedIsExamined(o);
      assert Evicted(o) in o.vals;
    }
  }

  /** A new client comes last. */
  lemma NewClient(rule: Rule, o: Table, max: int, c: int, id: int, now: real)
    requires Good(o) && c !in o.vals && !Full(o, max)
    ensures Inserted(rule, o, max, c, id, now)
         == (true, Ordered(o.keys + [c],
                           o.vals[c := Newcomer(rule, id, now)]))
  {
    hide Admitted;
    AdmittedQueue(rule, o, c, id, now);
    WithoutAbsent(o.keys, c);
  }

  /** An active client goes while an idle one stays: from an empty table with room for two, the first client comes, the
      second when the first has become idle, and at once a third, for which the second has to go. */
  lemma ActiveClientEvicted(rule: Rule, id: int)
    ensures var o1 := Inserted(rule, NO_CLIENTS, 2, 1, id, 0.0).1;
            var o2 := Inserted(rule, o1, 2, 2, id, Lifetime(rule)).1;
            && o2 == FirstTwo(rule, id)
            && Active(rule, o2.vals[2], Lifetime(rule)) && !Active(rule, o2.vals[1], Lifetime(rule))
            && Inserted(rule, o2, 2, 3, id, Lifetime(rule)) == (true, FirstAndThird(rule, id))
  {
    hide Inserted;
    FirstAlone(rule, id);
    SecondClient(rule, id);
    ThirdClient(rule, id);
  }

  function FirstOne(rule: Rule, id: int): Table {
    Ordered([1], map[1 := Newcomer(rule, id, 0.0)])
  }

  function FirstTwo(rule: Rule, id: int): Table {
    Ordered([1, 2], map[1 := Newcomer(rule, id, 0.0), 2 := Newcomer(rule, id, Lifetime(rule))])
  }

  function FirstAndThird(rule: Rule, id: int): Table {
    Ordered([1, 3], map[1 := Newcomer(rule, id, 0.0), 3 := Newcomer(rule, id, Lifetime(rule))])
  }

  lemma FirstAlone(rule: Rule, id: int)
    ensures Inserted(rule, NO_CLIENTS, 2, 1, id, 0.0).1 == FirstOne(rule, id)
  {
    NewClient(rule, NO_CLIENTS, 2, 1, id, 0.0);
    hide Inserted;
    assert [] + [1] == [1];
  }

  lemma SecondClient(rule: Rule, id: int)
    ensures Inserted(rule, FirstOne(rule, id), 2, 2, id, Lifetime(rule)) == (true, FirstTwo(rule, id))
    ensures Updated(FirstTwo(rule, id), 2, Lifetime(rule)) == FirstTwo(rule, id)
  {
    NewClient(rule, FirstOne(rule, id), 2, 2, id, Lifetime(rule));
    hide Inserted;
    assert [1] + [2] == [1, 2];
    assert Without([1, 2], 2) == [1];
    assert Updated(FirstTwo(rule, id), 2, Lifetime(rule)).vals == FirstTwo(rule, id).vals;
  }

  lemma FirstRoom(rule: Rule, id: int)
    ensures LetIn(rule, FirstOne(rule, id), 2, 2, id, Lifetime(rule))
  {
  }

  lemma ThirdClient(rule: Rule, id: int)
    ensures Inserted(rule, FirstTwo(rule, id), 2, 3, id, Lifetime(rule)) == (true, FirstAndThird(rule, id))
  {
    var o2, now := FirstTwo(rule, id), Lifetime(rule);
    var rest := FirstOne(rule, id);
    var t := Touched(o2, 1);
    assert t.keys == [2, 1];
    assert Without([2, 1], 2) == [1] && t.vals - {2} == rest.vals;
    assert Delete(t, t.keys[0]) == rest;
    AdmittedQueue(rule, rest, 3, id, now);
    hide Admitted;
    assert Without([1], 3) == [1] && [1] + [3] == [1, 3];
    assert rest.vals[3 := Newcomer(rule, id, now)] == FirstAndThird(rule, id).vals;
  }

  /** And with the second client's place its window is lost: the id that it has just used is let in again. */
  lemma SameIdAgain(rule: Rule, id: int)
    ensures LetIn(rule, FirstAndThird(rule, id), 2, 2, id, Lifetime(rule))
            && Inserted(rule, FirstAndThird(rule, id), 2, 2, id, Lifetime(rule)).0
  {
    AnswerIs(rule, FirstAndThird(rule, id), 2, 2, id, Lifetime(rule));
  }

  class ClientData {
    const rule: Rule
    const maxClient: int
    var clients: Table

    constructor (rule: Rule, maxClient: int)
      ensures this.rule == rule && this.maxClient == maxClient && clients == NO_CLIENTS && Good(clients)
    {
      this.rule, this.maxClient := rule, maxClient;
      clients := NO_CLIENTS;
    }

    /** The look-up of a client that is there. */
    method Get(c: int) returns (q: Queue)
      requires c in clients.vals
      modifies this`clients
      ensures q == old(clients).vals[c] && clients == Touched(old(clients), c)
    {
      q := clients.vals[c];
      clients := Ordered(Without(clients.keys, c) + [c], clients.vals);
      assert clients.vals == clients.vals[c := q];
    }

    /** Changes the window of a client that has been looked up. */
    method Put(c: int, q: Queue)
      modifies this`clients
      ensures clients == Ordered(old(clients).keys, old(clients).vals[c := q])
    {
      clients := Ordered(clients.keys, clients.vals[c := q]);
    }

    method Admit(c: int, id: int, now: real) returns (ok: bool)
      requires c !in clients.vals && Good(clients)
      modifies this`clients
      ensures (ok, clients) == Admitted(rule, old(clients), c, id, now)
    {
      var r := QueueInsert(rule, Queue(true, now, 0, Epoch(id, [])), id, now);
      ok := r.0;
      WithoutAbsent(clients.keys, c);
      clients := Set(clients, c, r.1);
    }

    /** May a client open a connection with this id? */
    method Insert(c: int, id: int, now: real) returns (ok: bool)
      requires Good(clients)
      modifies this`clients
      ensures Good(clients) && (ok, clients) == Inserted(rule, old(clients), maxClient, c, id, now)
    {
      hide WellFormed, Without, QueueInsert, Admitted;
      InsertedClients(rule, clients, maxClient, c, id, now);
      if c in clients.vals {
        var q := Get(c);
        var r := QueueInsert(rule, q, id, now);
        ok := r.0;
        Put(c, r.1);
        assert clients.vals == old(clients).vals[c := r.1];
        return;
      }
      if |clients.keys| == 0 || |clients.keys| < maxClient {
        ok := Admit(c, id, now);
        return;
      }
      FirstAfterTest(clients);
      StoredGood(clients, clients.keys[0], clients.vals[clients.keys[0]]);
      var q := Get(clients.keys[0]);
      if Active(rule, q, now) {
        return false;
      }
      DeletedGood(clients, clients.keys[0]);
      clients := Delete(clients, clients.keys[0]);
      ok := Admit(c, id, now);
    }

    /** Data of the client has come. */
    method Update(c: int, now: real)
      requires Good(clients)
      modifies this`clients
      ensures Good(clients) && clients == Updated(old(clients), c, now)
    {
      if c in clients.vals {
        StoredGood(clients, c, clients.vals[c].(last := now));
        hide WellFormed, Without, Good;
        var q := Get(c);
        Put(c, q.(last := now));
        assert clients.vals == old(clients).vals[c := q.(last := now)];
      }
    }

    /** A connection of the client has ended. */
    method Remove(c: int)
      requires Good(clients)
      modifies this`clients
      ensures Good(clients) && clients == Removed(old(clients), c)
    {
      if c in clients.vals {
        StoredGood(clients, c, Released(clients.vals[c]));
        hide WellFormed, Without, Released, Good;
        var q := Get(c);
        Put(c, Released(q));
        assert clients.vals == old(clients).vals[c := Released(q)];
      }
    }
  }
}
