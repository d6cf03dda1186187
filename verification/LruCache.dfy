/**
 * The timeout cache of lru_cache.py: a store, and an ordered dictionary of last access times.
 * Every access moves its key to the end, so that keys are in order of last access and
 * a sweep may stop at the first fresh key.
 */
module LruCache {
  import opened ByteStrings
  import opened Options
  import opened OrderedDictionary

  const SWEEP_MAX_ITEMS := 1024

  // ----- access times -----

  /** An access: the key moves to the end with the new time. */
  function Touch<K(==)>(o: Ordered<K, real>, k: K, now: real): Ordered<K, real> {
    Set(Delete(o, k), k, now)
  }

  function KeySet<K(==)>(s: seq<K>): set<K> {
    set k | k in s
  }

  /** Distinct keys whose times do not decrease, nor exceed the clock. */
  ghost predicate Ascending<K>(keys: seq<K>, vals: map<K, real>, clock: real) {
    if keys == [] then true
    else
      && keys[0] in vals && keys[0] !in keys[1..]
      && vals[keys[0]] <= (if |keys| > 1 && keys[1] in vals then vals[keys[1]] else clock)
      && Ascending(keys[1..], vals, clock)
  }

  ghost predicate InTouchOrder<K(!new)>(o: Ordered<K, real>, clock: real) {
    Ascending(o.keys, o.vals, clock) && o.vals.Keys == KeySet(o.keys)
  }

  /** What Ascending says about any two positions. */
  lemma {:induction false} AscendingPairs<K>(keys: seq<K>, vals: map<K, real>, clock: real, j: nat)
    requires Ascending(keys, vals, clock) && j < |keys|
    ensures keys[j] in vals && vals[keys[0]] <= vals[keys[j]] <= clock
    ensures j > 0 ==> keys[0] != keys[j]
    decreases |keys|
  {
    if j > 0 {
      AscendingPairs(keys[1..], vals, clock, j - 1);
    } else if |keys| > 1 {
      AscendingPairs(keys[1..], vals, clock, 0);
    }
  }

  lemma {:induction false} AscendingFrame<K>(keys: seq<K>, vals: map<K, real>, vals': map<K, real>, clock: real,
                                             clock': real)
    requires Ascending(keys, vals, clock) && clock <= clock'
    requires forall k :: k in keys && k in vals ==> k in vals' && vals'[k] == vals[k]
    ensures Ascending(keys, vals', clock')
    decreases |keys|
  {
    if keys != [] {
      if |keys| > 1 {
        assert keys[1..][0] == keys[1];
      }
      AscendingFrame(keys[1..], vals, vals', clock, clock');
    }
  }

  /** Taking a key out keeps the order. */
  lemma {:induction false} AscendingWithout<K>(keys: seq<K>, vals: map<K, real>, k: K, clock: real)
    requires Ascending(keys, vals, clock)
    ensures Ascending(Without(keys, k), vals - {k}, clock)
    ensures k !in Without(keys, k) && KeySet(Without(keys, k)) == KeySet(keys) - {k}
    ensures keys != [] && Without(keys, k) != [] ==>
              Without(keys, k)[0] in vals && vals[keys[0]] <= vals[Without(keys, k)[0]]
    decreases |keys|
  {
    if keys == [] {
    } else if keys[0] == k {
      AscendingFrame(keys[1..], vals, vals - {k}, clock, clock);
      assert keys == [k] + keys[1..];
      assert KeySet(keys) == {k} + KeySet(keys[1..]);
      if keys[1..] != [] {
        AscendingPairs(keys, vals, clock, 1);
      }
    } else {
      AscendingWithout(keys[1..], vals, k, clock);
      var t := Without(keys[1..], k);
      assert keys == [keys[0]] + keys[1..];
      assert KeySet(keys) == {keys[0]} + KeySet(keys[1..]);
      assert KeySet([keys[0]] + t) == {keys[0]} + KeySet(t);
      assert keys[0] !in KeySet(t);
      AscendingPairs(keys, vals, clock, 0);
    }
  }

  /** A new last key with the latest time keeps the order. */
  lemma AscendingAppend<K>(keys: seq<K>, vals: map<K, real>, k: K, clock: real, now: real)
    requires Ascending(keys, vals, clock) && clock <= now && k !in keys
    ensures Ascending(keys + [k], vals[k := now], now)
    decreases |keys|
  {
    var t := keys + [k];
    if keys == [] {
      assert t == [k];
    } else {
      assert t[1..] == keys[1..] + [k];
      AscendingAppend(keys[1..], vals, k, clock, now);
      AscendingPairs(keys, vals, clock, 0);
    }
  }

  lemma DeleteOrdered<K(!new)>(o: Ordered<K, real>, k: K, clock: real)
    requires InTouchOrder(o, clock)
    ensures InTouchOrder(Delete(o, k), clock) && k !in Delete(o, k).keys
  {
    AscendingWithout(o.keys, o.vals, k, clock);
  }

  /** With a clock that does not run backwards, accesses keep the order; the touched key is the last. */
  lemma TouchKeepsOrder<K(!new)>(o: Ordered<K, real>, k: K, clock: real, now: real)
    requires InTouchOrder(o, clock) && clock <= now
    ensures InTouchOrder(Touch(o, k, now), now)
    ensures Touch(o, k, now) == Ordered(Without(o.keys, k) + [k], o.vals[k := now])
  {
    DeleteOrdered(o, k, clock);
    var d := Delete(o, k);
    AscendingAppend(d.keys, d.vals, k, clock, now);
    assert d.vals[k := now] == o.vals[k := now];
    assert KeySet(d.keys + [k]) == KeySet(d.keys) + {k};
  }

  // ----- filtering by time -----

  /** The keys, in order, whose last access is (expired) or is not longer ago than the timeout. */
  function Select<K(==)>(keys: seq<K>, vals: map<K, real>, now: real, timeout: real, expired: bool): seq<K> {
    if keys == [] then []
    else
      var rest := Select(keys[1..], vals, now, timeout, expired);
      if keys[0] in vals && (now - vals[keys[0]] > timeout) == expired then [keys[0]] + rest else rest
  }

  /** n keys from the front are expired and the next one, if any, is not. */
  ghost predicate CutAt<K>(keys: seq<K>, vals: map<K, real>, now: real, timeout: real, n: nat)
    decreases n
  {
    if n == 0 then keys == [] || (keys[0] in vals && now - vals[keys[0]] <= timeout)
    else keys != [] && keys[0] in vals && now - vals[keys[0]] > timeout && CutAt(keys[1..], vals, now, timeout, n - 1)
  }

  /** The expired keys are a prefix of the keys in touch order, and the fresh ones the rest, so that the sweep's
      early exit agrees with filtering the whole cache. */
  lemma {:induction false} ExpiredFirst<K>(keys: seq<K>, vals: map<K, real>, clock: real, now: real, timeout: real,
                                           n: nat)
    requires Ascending(keys, vals, clock) && CutAt(keys, vals, now, timeout, n)
    ensures n <= |keys|
    ensures Select(keys, vals, now, timeout, true) == keys[..n]
    ensures Select(keys, vals, now, timeout, false) == keys[n..]
    decreases |keys|
  {
    if keys != [] {
      if n == 0 && |keys| > 1 {
        AscendingPairs(keys, vals, clock, 1);
      }
      ExpiredFirst(keys[1..], vals, clock, now, timeout, if n > 0 then n - 1 else 0);
      assert keys == [keys[0]] + keys[1..];
    }
  }

  // ----- the cache -----

  datatype Cache<K, V> = Cache(times: Ordered<K, real>, store: map<K, V>)

  /** Store and times hold the same keys, which are in touch order. */
  ghost predicate Sound<K(!new), V>(c: Cache<K, V>, clock: real) {
    InTouchOrder(c.times, clock) && c.store.Keys == c.times.vals.Keys
  }

  function Remove<K(==), V>(c: Cache<K, V>, k: K): Cache<K, V> {
    Cache(Delete(c.times, k), c.store - {k})
  }

  lemma RemoveSound<K(!new), V>(c: Cache<K, V>, k: K, clock: real)
    requires Sound(c, clock)
    ensures Sound(Remove(c, k), clock)
  {
    DeleteOrdered(c.times, k, clock);
  }

  lemma FirstInStore<K(!new), V>(c: Cache<K, V>, clock: real)
    requires Sound(c, clock) && c.times.keys != []
    ensures c.times.keys[0] in c.times.vals && c.times.keys[0] in c.store
    ensures Without(c.times.keys, c.times.keys[0]) == c.times.keys[1..]
  {
  }

  /** The cache without the n keys not accessed for longest. */
  ghost function DropOldest<K(!new), V>(c: Cache<K, V>, n: nat, clock: real): (d: Cache<K, V>)
    requires Sound(c, clock) && n <= |c.times.keys|
    ensures Sound(d, clock) && d.times.keys == c.times.keys[n..]
    decreases n
  {
    if n == 0 then c
    else
      var d := DropOldest(c, n - 1, clock);
      FirstInStore(d, clock);
      RemoveSound(d, d.times.keys[0], clock);
      Remove(d, d.times.keys[0])
  }

  /** The values of keys, in order. */
  function ValuesOf<K(==), V>(keys: seq<K>, store: map<K, V>): seq<V> {
    if keys == [] then []
    else (if keys[0] in store then [store[keys[0]]] else []) + ValuesOf(keys[1..], store)
  }

  lemma {:induction false} ValuesOfSnoc<K, V>(keys: seq<K>, k: K, store: map<K, V>)
    requires k in store
    ensures ValuesOf(keys + [k], store) == ValuesOf(keys, store) + [store[k]]
  {
    if keys == [] {
      assert keys + [k] == [k];
    } else {
      ValuesOfSnoc(keys[1..], k, store);
      assert (keys + [k])[1..] == keys[1..] + [k] && (keys + [k])[0] == keys[0];
      var first := if keys[0] in store then [store[keys[0]]] else [];
      assert ValuesOf(keys, store) == first + ValuesOf(keys[1..], store);
      assert ValuesOf(keys + [k], store) == first + ValuesOf(keys[1..] + [k], store);
    }
  }

  lemma {:induction false} ValuesOfAll<K, V>(keys: seq<K>, store: map<K, V>)
    requires forall k :: k in keys ==> k in store
    ensures |ValuesOf(keys, store)| == |keys|
    ensures forall i :: 0 <= i < |keys| ==> ValuesOf(keys, store)[i] == store[keys[i]]
  {
    if keys != [] {
      ValuesOfAll(keys[1..], store);
    }
  }

  /** What is left keeps its values and times. */
  lemma {:induction false} DropOldestKeeps<K(!new), V>(c: Cache<K, V>, n: nat, clock: real, k: K)
    requires Sound(c, clock) && n <= |c.times.keys|
    ensures var d := DropOldest(c, n, clock);
            && (k in d.store <==> k in c.times.keys[n..])
            && (k in d.store ==>
                  && k in c.store && k in c.times.vals
                  && d.store[k] == c.store[k] && d.times.vals[k] == c.times.vals[k])
    decreases n
  {
    var d := DropOldest(c, n, clock);
    assert k in d.store <==> k in KeySet(d.times.keys);
    if n > 0 {
      DropOldestKeeps(c, n - 1, clock, k);
    }
  }

  /** Every key left was accessed no earlier than every key removed. */
  lemma KeptAreRecent<K(!new), V>(c: Cache<K, V>, clock: real, i: nat, j: nat)
    requires Sound(c, clock) && i < j < |c.times.keys|
    ensures c.times.keys[i] in c.times.vals && c.times.keys[j] in c.times.vals
    ensures c.times.vals[c.times.keys[i]] <= c.times.vals[c.times.keys[j]]
  {
    AscendingFrom(c.times.keys, c.times.vals, clock, i);
    AscendingPairs(c.times.keys[i..], c.times.vals, clock, j - i);
    AscendingPairs(c.times.keys, c.times.vals, clock, i);
  }

  lemma {:induction false} AscendingFrom<K>(keys: seq<K>, vals: map<K, real>, clock: real, i: nat)
    requires Ascending(keys, vals, clock) && i <= |keys|
    ensures Ascending(keys[i..], vals, clock)
    decreases i
  {
    if i > 0 {
      AscendingFrom(keys[1..], vals, clock, i - 1);
      assert keys[1..][i - 1..] == keys[i..];
    } else {
      assert keys[0..] == keys;
    }
  }

  /** How far a sweep goes: it stops at the limit or at the first key that is not expired. */
  ghost function SweepCount<K>(keys: seq<K>, vals: map<K, real>, now: real, timeout: real, limit: nat): nat
    decreases limit
  {
    if limit == 0 || keys == [] || keys[0] !in vals || now - vals[keys[0]] <= timeout then 0
    else 1 + SweepCount(keys[1..], vals, now, timeout, limit - 1)
  }

  /** Without a limit that matters it goes as far as the expired keys do. */
  lemma {:induction false} SweepCountCuts<K>(keys: seq<K>, vals: map<K, real>, clock: real, now: real, timeout: real)
    requires Ascending(keys, vals, clock)
    ensures CutAt(keys, vals, now, timeout, SweepCount(keys, vals, now, timeout, |keys|))
  {
    if keys != [] && now - vals[keys[0]] > timeout {
      SweepCountCuts(keys[1..], vals, clock, now, timeout);
    }
  }

  lemma {:induction false} SweepCountIs<K>(keys: seq<K>, vals: map<K, real>, now: real, timeout: real, limit: nat,
                                           n: nat)
    requires CutAt(keys, vals, now, timeout, n)
    ensures SweepCount(keys, vals, now, timeout, limit) == Min(limit, n)
    decreases n
  {
    if n > 0 && limit > 0 {
      SweepCountIs(keys[1..], vals, now, timeout, limit - 1, n - 1);
    }
  }

  /** A sweep removes what a filter of the whole cache by time would remove, oldest access first, up to the limit; what
      is left is the rest of that and then the keys that the filter would leave. */
  lemma {:induction false} SweepIsFilter<K(!new), V>(c: Cache<K, V>, clock: real, now: real, timeout: real, limit: nat)
    requires Sound(c, clock)
    ensures var n := SweepCount(c.times.keys, c.times.vals, now, timeout, limit);
            var expired := Select(c.times.keys, c.times.vals, now, timeout, true);
            && n == Min(limit, |expired|) && n <= |c.times.keys| && c.times.keys[..n] == expired[..n]
            && DropOldest(c, n, clock).times.keys
               == expired[n..] + Select(c.times.keys, c.times.vals, now, timeout, false)
  {
    hide SweepCount, Ascending, CutAt, Select;
    var keys, vals := c.times.keys, c.times.vals;
    var cut := SweepCount(keys, vals, now, timeout, |keys|);
    SweepCountCuts(keys, vals, clock, now, timeout);
    ExpiredFirst(keys, vals, clock, now, timeout, cut);
    SweepCountIs(keys, vals, now, timeout, limit, cut);
    CutTwice(keys, cut, Min(limit, cut));
  }

  lemma CutTwice<K>(keys: seq<K>, cut: nat, n: nat)
    requires n <= cut <= |keys|
    ensures keys[..n] == keys[..cut][..n] && keys[n..] == keys[..cut][n..] + keys[cut..]
  {
  }

  /** c is before without its n oldest keys, whose values, oldest access first, are closed. */
  ghost predicate Dropped<K(!new), V>(before: Cache<K, V>, c: Cache<K, V>, n: nat, closed: seq<V>, clock: real) {
    && Sound(before, clock) && n <= |before.times.keys|
    && c == DropOldest(before, n, clock)
    && closed == ValuesOf(before.times.keys[..n], before.store)
  }

  lemma ClosedOneMore<K(!new), V>(before: Cache<K, V>, n: nat, clock: real)
    requires Sound(before, clock) && n < |before.times.keys|
    ensures before.times.keys[n] in before.store
    ensures ValuesOf(before.times.keys[..n + 1], before.store)
         == ValuesOf(before.times.keys[..n], before.store) + [before.store[before.times.keys[n]]]
  {
    var k := before.times.keys[n];
    assert k in KeySet(before.times.keys);
    assert before.times.keys[..n + 1] == before.times.keys[..n] + [k];
    ValuesOfSnoc(before.times.keys[..n], k, before.store);
  }

  lemma {:induction false} OldestLeft<K(!new), V>(before: Cache<K, V>, n: nat, clock: real)
    requires Sound(before, clock) && n < |before.times.keys|
    ensures var d := DropOldest(before, n, clock);
            var k := before.times.keys[n];
            && d.times.keys != [] && d.times.keys[0] == k && k in d.times.vals && k in d.store
            && k in before.store && d.store[k] == before.store[k]
  {
    var d := DropOldest(before, n, clock);
    assert d.times.keys[0] == before.times.keys[n];
    FirstInStore(d, clock);
    DropOldestKeeps(before, n, clock, before.times.keys[n]);
  }

  lemma DroppedOneMore<K(!new), V>(before: Cache<K, V>, c: Cache<K, V>, n: nat, closed: seq<V>, clock: real)
    requires Dropped(before, c, n, closed, clock) && c.times.keys != []
    ensures var k := c.times.keys[0];
            && k in c.times.vals && k in c.store
            && Dropped(before, Remove(c, k), n + 1, closed + [c.store[k]], clock)
  {
    hide Sound, Remove, ValuesOf;
    OldestLeft(before, n, clock);
    ClosedOneMore(before, n, clock);
    assert DropOldest(before, n + 1, clock) == Remove(c, c.times.keys[0]);
  }

  lemma DroppedSound<K(!new), V>(before: Cache<K, V>, c: Cache<K, V>, n: nat, closed: seq<V>, clock: real)
    requires Dropped(before, c, n, closed, clock)
    ensures Sound(c, clock) && c.times.keys == before.times.keys[n..]
  {
  }

  /** One value is handed over for every key removed. */
  lemma DroppedOncePerKey<K(!new), V>(before: Cache<K, V>, c: Cache<K, V>, n: nat, closed: seq<V>, clock: real, i: nat)
    requires Dropped(before, c, n, closed, clock) && i < n
    ensures |closed| == n && before.times.keys[i] in before.store && closed[i] == before.store[before.times.keys[i]]
  {
    forall k | k in before.times.keys[..n]
      ensures k in before.store
    {
      assert k in KeySet(before.times.keys);
    }
    ValuesOfAll(before.times.keys[..n], before.store);
  }

  /** What a sweep has still to do: n of the oldest keys are removed, and the rest of the sweep makes up the total. */
  ghost predicate Sweeping<K(!new), V>(before: Cache<K, V>, c: Cache<K, V>, n: nat, closed: seq<V>, now: real,
                                       timeout: real, limit: nat, clock: real) {
    && Dropped(before, c, n, closed, clock) && n <= limit
    && SweepCount(before.times.keys, before.times.vals, now, timeout, limit)
       == n + SweepCount(c.times.keys, c.times.vals, now, timeout, limit - n)
  }

  lemma {:induction false} SweepCountRemove<K(!new), V>(c: Cache<K, V>, now: real, timeout: real, limit: nat,
                                                        clock: real)
    requires Sound(c, clock) && limit > 0 && c.times.keys != []
    ensures c.times.keys[0] in c.times.vals
    ensures now - c.times.vals[c.times.keys[0]] > timeout ==>
              SweepCount(c.times.keys, c.times.vals, now, timeout, limit)
              == 1 + SweepCount(Remove(c, c.times.keys[0]).times.keys, Remove(c, c.times.keys[0]).times.vals, now,
                                timeout, limit - 1)
  {
    if now - c.times.vals[c.times.keys[0]] > timeout {
      SweepCountTail(c.times.keys, c.times.vals, now, timeout, limit, clock);
    }
  }

  lemma SweepOneMore<K(!new), V>(before: Cache<K, V>, c: Cache<K, V>, n: nat, closed: seq<V>, now: real,
                                 timeout: real, limit: nat, clock: real)
    requires Sweeping(before, c, n, closed, now, timeout, limit, clock) && n < limit && c.times.keys != []
    ensures var k := c.times.keys[0];
            && k in c.times.vals && k in c.store
            && (now - c.times.vals[k] > timeout ==>
                  Sweeping(before, Remove(c, k), n + 1, closed + [c.store[k]], now, timeout, limit, clock))
  {
    hide Dropped, Sound, SweepCount, Remove;
    DroppedOneMore(before, c, n, closed, clock);
    DroppedSound(before, c, n, closed, clock);
    SweepCountRemove(c, now, timeout, limit - n, clock);
  }

  /** The sweep may stop. */
  predicate AtStop<K(==), V>(c: Cache<K, V>, n: nat, now: real, timeout: real, limit: nat) {
    n >= limit || c.times.keys == [] || (c.times.keys[0] in c.times.vals
                                         && now - c.times.vals[c.times.keys[0]] <= timeout)
  }

  lemma {:induction false} SweepDone<K(!new), V>(before: Cache<K, V>, c: Cache<K, V>, n: nat, closed: seq<V>,
                                                 now: real, timeout: real, limit: nat, clock: real)
    requires Sweeping(before, c, n, closed, now, timeout, limit, clock) && AtStop(c, n, now, timeout, limit)
    ensures n == SweepCount(before.times.keys, before.times.vals, now, timeout, limit)
    ensures Dropped(before, c, n, closed, clock) && Sound(c, clock)
  {
  }

  lemma SweepStart<K(!new), V>(c: Cache<K, V>, now: real, timeout: real, limit: nat, clock: real)
    requires Sound(c, clock)
    ensures Sweeping(c, c, 0, [], now, timeout, limit, clock)
  {
  }

  class LruCache<K(==, !new), V(!new)> {
    const timeout: real
    var store: map<K, V>
    var times: Ordered<K, real>
    ghost var clock: real

    function View(): Cache<K, V>
      reads this
    {
      Cache(times, store)
    }

    ghost predicate Valid()
      reads this
    {
      Sound(View(), clock)
    }

    constructor (timeout: real, now: real)
      ensures Valid() && this.timeout == timeout && View() == Cache(Ordered([], map[]), map[]) && clock == now
    {
      this.timeout := timeout;
      store := map[];
      times := Ordered([], map[]);
      clock := now;
    }

    /** cache[key]; None is the KeyError. Reading moves the key to the end. */
    method GetItem(key: K, now: real) returns (value: Option<V>)
      requires Valid() && clock <= now
      modifies this`times, this`clock
      ensures Valid()
      ensures key in store ==> value == Some(store[key]) && times == Touch(old(times), key, now) && clock == now
      ensures key !in store ==> value == None && times == old(times)
    {
      if key !in times.vals {
        return None;
      }
      TouchKeepsOrder(times, key, clock, now);
      clock := now;
      times := Delete(times, key);
      times := Set(times, key, now);
      value := Some(store[key]);
    }

    method SetItem(key: K, value: V, now: real)
      requires Valid() && clock <= now
      modifies this
      ensures Valid() && clock == now
      ensures View() == Cache(Touch(old(times), key, now), old(store)[key := value])
    {
      TouchKeepsOrder(times, key, clock, now);
      clock := now;
      if key in times.vals {
        times := Delete(times, key);
      } else {
        WithoutAbsent(times.keys, key);
        assert Delete(times, key).vals == times.vals;
      }
      times := Set(times, key, now);
      store := store[key := value];
    }

    /** del cache[key]; false is the KeyError. */
    method DelItem(key: K) returns (ok: bool)
      requires Valid()
      modifies this`store, this`times
      ensures Valid() && ok == (key in old(store))
      ensures View() == if ok then Remove(old(View()), key) else old(View())
    {
      if key !in times.vals {
        return false;
      }
      RemoveSound(View(), key, clock);
      store := store - {key};
      times := Delete(times, key);
      return true;
    }

    /** The key not accessed for longest. */
    method First() returns (key: Option<K>)
      requires Valid()
      ensures key == if times.keys == [] then None else Some(times.keys[0])
    {
      key := if |times.keys| > 0 then Some(times.keys[0]) else None;
    }

    /** Removes expired keys, oldest access first, up to a limit; the values removed go to the callback, in this order
        and once each. */
    method Sweep(now: real, limit: nat) returns (closed: seq<V>, few: bool)
      requires Valid()
      modifies this`store, this`times
      ensures var expired := Select(old(times).keys, old(times).vals, now, timeout, true);
              var n := Min(limit, |expired|);
              && Valid() && Dropped(old(View()), View(), n, closed, clock) && few == (n < SWEEP_MAX_ITEMS)
              && n <= |old(times).keys| && old(times).keys[..n] == expired[..n]
              && times.keys == expired[n..] + Select(old(times).keys, old(times).vals, now, timeout, false)
    {
      hide SweepCount, Sound, Dropped, Select, Remove;
      ghost var before := View();
      closed := [];
      var c := 0;
      SweepStart(before, now, timeout, limit, clock);
      while !AtStop(View(), c, now, timeout, limit)
        invariant Sweeping(before, View(), c, closed, now, timeout, limit, clock)
        decreases limit - c
      {
        SweepOneMore(before, View(), c, closed, now, timeout, limit, clock);
        var value := RemoveFirst();
        closed := closed + [value];
        c := c + 1;
      }
      SweepDone(before, View(), c, closed, now, timeout, limit, clock);
      SweepIsFilter(before, clock, now, timeout, limit);
      few := c < SWEEP_MAX_ITEMS;
    }

    method RemoveFirst() returns (value: V)
      requires times.keys != [] && times.keys[0] in store
      modifies this`store, this`times
      ensures value == old(store)[old(times).keys[0]] && View() == Remove(old(View()), old(times).keys[0])
    {
      var key := times.keys[0];
      value := store[key];
      store := store - {key};
      times := Delete(times, key);
    }

    /** Removes keys, oldest access first, until no more than keep are left. */
    method Clear(keep: int) returns (closed: seq<V>, few: bool)
      requires Valid()
      modifies this`store, this`times
      ensures var n := ClearCount(|old(times).keys|, keep);
              Valid() && Dropped(old(View()), View(), n, closed, clock) && few == (n < SWEEP_MAX_ITEMS)
      ensures |times.keys| == if keep < 0 then 0 else Min(|old(times).keys|, keep)
    {
      hide Dropped, Sound, Remove;
      ghost var before := View();
      closed := [];
      var c := 0;
      DroppedNone(before, clock);
      while |times.keys| > keep
        invariant Clearing(before, View(), c, closed, keep, clock)
        decreases |times.keys|
      {
        if |times.keys| == 0 {
          break;
        }
        ClearOneMore(before, View(), c, closed, keep, clock);
        var value := RemoveFirst();
        closed := closed + [value];
        c := c + 1;
      }
      DroppedSound(before, View(), c, closed, clock);
      few := c < SWEEP_MAX_ITEMS;
    }
  }

  /** How many keys are removed so that no more than keep are left. */
  function ClearCount(size: nat, keep: int): nat {
    if size <= keep then 0 else if keep < 0 then size else size - keep
  }

  lemma DroppedNone<K(!new), V>(c: Cache<K, V>, clock: real)
    requires Sound(c, clock)
    ensures Dropped(c, c, 0, [], clock)
  {
  }

  ghost predicate Clearing<K(!new), V>(before: Cache<K, V>, c: Cache<K, V>, n: nat, closed: seq<V>, keep: int,
                                       clock: real) {
    && Dropped(before, c, n, closed, clock)
    && |c.times.keys| == |before.times.keys| - n && (|c.times.keys| >= keep || n == 0)
  }

  lemma ClearOneMore<K(!new), V>(before: Cache<K, V>, c: Cache<K, V>, n: nat, closed: seq<V>, keep: int, clock: real)
    requires Clearing(before, c, n, closed, keep, clock) && |c.times.keys| > keep && |c.times.keys| > 0
    ensures var k := c.times.keys[0];
            && k in c.times.vals && k in c.store
            && Clearing(before, Remove(c, k), n + 1, closed + [c.store[k]], keep, clock)
            && |Remove(c, k).times.keys| < |c.times.keys|
  {
    hide Dropped, Sound, Remove;
    DroppedOneMore(before, c, n, closed, clock);
    var k := c.times.keys[0];
    DroppedSound(before, c, n, closed, clock);
    DroppedSound(before, Remove(c, k), n + 1, closed + [c.store[k]], clock);
  }

  /** Removing an expired first key leaves the rest of the sweep as it was. */
  lemma SweepCountTail<K(!new)>(keys: seq<K>, vals: map<K, real>, now: real, timeout: real, limit: nat, clock: real)
    requires Ascending(keys, vals, clock) && keys != [] && limit > 0 && now - vals[keys[0]] > timeout
    ensures SweepCount(keys, vals, now, timeout, limit)
         == 1 + SweepCount(Without(keys, keys[0]), vals - {keys[0]}, now, timeout, limit - 1)
  {
    SweepCountFrame(keys[1..], vals, vals - {keys[0]}, now, timeout, limit - 1);
  }

  lemma {:induction false} SweepCountFrame<K>(keys: seq<K>, vals: map<K, real>, vals': map<K, real>, now: real,
                                              timeout: real, limit: nat)
    requires forall k :: k in keys ==> (k in vals <==> k in vals') && (k in vals ==> vals'[k] == vals[k])
    ensures SweepCount(keys, vals, now, timeout, limit) == SweepCount(keys, vals', now, timeout, limit)
    decreases limit
  {
    if limit > 0 && keys != [] {
      SweepCountFrame(keys[1..], vals, vals', now, timeout, limit - 1);
    }
  }
}
