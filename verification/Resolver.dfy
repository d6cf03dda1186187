/**
 * The pending queries of DNSResolver: which host names are being resolved, in which address family,
 * and which callbacks wait for them. Callbacks do not call the resolver back, and each call of
 * resolve brings a callback of its own.
 */
module Resolver {
  import opened ByteStrings
  import opened DnsCodec
  import opened DnsMessage
  import opened HostNames
  import opened Options
  import opened Sorting
  import OD = OrderedDictionary

  datatype Family = V4 | V6

  function Other(f: Family): Family {
    if f == V4 then V6 else V4
  }

  function QueryType(f: Family): U16 {
    if f == V4 then QTYPE_A else QTYPE_AAAA
  }

  /** What has happened so far: where each waiting callback waits, which callbacks opened a query, all that were ever
      given, those invoked, in order, what each of them was told (an address, or an error), those removed, and how often
      each pending query has switched its family. */
  datatype History<C> = History(place: map<C, Bytes>, openers: set<C>, given: set<C>, called: seq<C>,
                                told: map<C, Option<Bytes>>, removed: set<C>, switches: map<Bytes, nat>)

  /** The three maps of the resolver, and the history. The status of a name whose request could not be built is kept
      apart, as stuck: nobody waits for it. */
  datatype State<C> = State(status: map<Bytes, Family>, waiters: map<Bytes, seq<C>>, owner: map<C, Bytes>,
                            past: History<C>, stuck: map<Bytes, Family>)

  function Elements<C(==)>(s: seq<C>): set<C> {
    set c | c in s
  }

  /** Status, but for the stuck names, and waiters always have the same host names, and nobody's list is empty. */
  ghost predicate Books<C(!new)>(s: State<C>) {
    && s.status.Keys == s.waiters.Keys == s.past.switches.Keys
    && forall h {:trigger s.waiters[h]} :: h in s.waiters ==> s.waiters[h] != []
  }

  /** Every callback waits for one host name, once. */
  ghost predicate Placed<C(!new)>(s: State<C>) {
    && (forall h {:trigger s.waiters[h]} :: h in s.waiters ==> Distinct(s.waiters[h]))
    && (forall h, c {:trigger c in s.waiters[h]} :: h in s.waiters && c in s.waiters[h] ==>
          c in s.past.place && s.past.place[c] == h)
    && (forall c {:trigger s.past.place[c]} :: c in s.past.place ==>
          s.past.place[c] in s.waiters && c in s.waiters[s.past.place[c]])
  }

  /** The callbacks that can be removed are exactly the waiting ones that opened their query. */
  ghost predicate Owned<C(!new)>(s: State<C>) {
    && (forall c {:trigger s.owner[c]} :: c in s.owner ==> c in s.past.place && s.past.place[c] == s.owner[c])
    && (forall c {:trigger c in s.owner} :: c in s.owner <==> c in s.past.place && c in s.past.openers)
  }

  /** Every callback given is waiting, has been invoked once, or was removed; and only one of these. */
  ghost predicate Accounted<C(!new)>(s: State<C>) {
    var p := s.past;
    && Distinct(p.called)
    && p.given == p.place.Keys + Elements(p.called) + p.removed
    && p.place.Keys !! Elements(p.called) && p.place.Keys !! p.removed && Elements(p.called) !! p.removed
    && p.openers <= p.given
  }

  /** A pending query has switched its family at most once. */
  ghost predicate SwitchedOnce<C(!new)>(s: State<C>, first: Family) {
    forall h {:trigger s.status[h]} :: h in s.status && h in s.past.switches ==>
      s.past.switches[h] == if s.status[h] == first then 0 else 1
  }

  /** Somebody waits only for names that can be asked about; the others are the stuck ones. */
  ghost predicate Named<C(!new)>(s: State<C>) {
    && (forall h {:trigger Askable(h)} {:trigger s.waiters[h]} :: h in s.waiters ==> Askable(h))
    && (forall h {:trigger Askable(h)} {:trigger s.stuck[h]} :: h in s.stuck ==> !Askable(h))
  }

  ghost predicate Sound<C(!new)>(s: State<C>, first: Family) {
    Named(s) && Books(s) && Placed(s) && Owned(s) && Accounted(s) && SwitchedOnce(s, first)
  }

  // ----- transitions -----

  /** A callback that is answered at once. */
  function Answered<C>(s: State<C>, c: C, ip: Option<Bytes>): State<C> {
    var p := s.past;
    s.(past := p.(given := p.given + {c}, called := p.called + [c], told := p.told[c := ip]))
  }

  /** A query for a host name that is not pending. */
  function Opened<C>(s: State<C>, h: Bytes, c: C, first: Family): State<C> {
    var p := s.past;
    s.(status := s.status[h := first], waiters := s.waiters[h := [c]], owner := s.owner[c := h],
       past := p.(place := p.place[c := h], openers := p.openers + {c}, given := p.given + {c},
                  switches := p.switches[h := 0]))
  }

  /** One more callback for a pending host name. */
  function Joined<C>(s: State<C>, h: Bytes, c: C): State<C>
    requires h in s.waiters
  {
    var p := s.past;
    s.(waiters := s.waiters[h := s.waiters[h] + [c]], past := p.(place := p.place[c := h], given := p.given + {c}))
  }

  /** What has been told, when these are told this. */
  function Told<C(==)>(told: map<C, Option<Bytes>>, cs: set<C>, ip: Option<Bytes>): map<C, Option<Bytes>> {
    told + (map c | c in cs :: ip)
  }

  lemma ToldNobody<C>(told: map<C, Option<Bytes>>, ip: Option<Bytes>)
    ensures Told(told, Elements([]), ip) == told
  {
  }

  lemma ToldOneMore<C>(told: map<C, Option<Bytes>>, cs: set<C>, c: C, ip: Option<Bytes>)
    ensures Told(told, cs + {c}, ip) == Told(told, cs, ip)[c := ip]
  {
  }

  /** All waiters of a host name are invoked, in order, and the query is over. */
  function Closed<C(==)>(s: State<C>, h: Bytes, ip: Option<Bytes>): State<C>
    requires h in s.waiters
  {
    var p, gone := s.past, Elements(s.waiters[h]);
    s.(status := s.status - {h}, waiters := s.waiters - {h}, owner := s.owner - gone,
       past := p.(place := p.place - gone, called := p.called + s.waiters[h],
                  told := Told(p.told, gone, ip), switches := p.switches - {h}))
  }

  /** The query goes on in the other family. */
  function Switched<C>(s: State<C>, h: Bytes, f: Family): State<C>
    requires h in s.past.switches
  {
    s.(status := s.status[h := f], past := s.past.(switches := s.past.switches[h := s.past.switches[h] + 1]))
  }

  /** A callback is removed, and with the last one the query. */
  function Removed<C(==)>(s: State<C>, h: Bytes, c: C): State<C>
    requires h in s.waiters
  {
    var p, rest := s.past, OD.Without(s.waiters[h], c);
    if rest == [] then
      s.(status := s.status - {h}, waiters := s.waiters - {h}, owner := s.owner - {c},
         past := p.(place := p.place - {c}, removed := p.removed + {c}, switches := p.switches - {h}))
    else
      s.(waiters := s.waiters[h := rest], owner := s.owner - {c},
         past := p.(place := p.place - {c}, removed := p.removed + {c}))
  }

  lemma DistinctSnoc<C>(s: seq<C>, c: C)
    requires Distinct(s) && c !in s
    ensures Distinct(s + [c]) && Elements(s + [c]) == Elements(s) + {c}
  {
  }

  lemma DistinctAppend<C>(s: seq<C>, t: seq<C>)
    requires Distinct(s) && Distinct(t) && Elements(s) !! Elements(t)
    ensures Distinct(s + t) && Elements(s + t) == Elements(s) + Elements(t)
  {
    forall i, j | 0 <= i < j < |s + t|
      ensures (s + t)[i] != (s + t)[j]
    {
      if i < |s| <= j {
        assert s[i] in Elements(s) && t[j - |s|] in Elements(t);
      }
    }
  }

  lemma {:induction false} WithoutDistinct<C>(s: seq<C>, c: C)
    requires Distinct(s) && c in s
    ensures Distinct(OD.Without(s, c)) && Elements(OD.Without(s, c)) == Elements(s) - {c}
    decreases |s|
  {
    assert s == [s[0]] + s[1..];
    if s[0] != c {
      WithoutDistinct(s[1..], c);
      var rest := OD.Without(s[1..], c);
      assert s[0] !in Elements(s[1..]);
      assert s[0] !in Elements(rest);
      assert Elements([s[0]] + rest) == {s[0]} + Elements(rest);
      assert Elements(s) == {s[0]} + Elements(s[1..]);
    } else {
      assert Elements(s) == {c} + Elements(s[1..]);
      assert c !in Elements(s[1..]);
    }
  }

  lemma AnsweredSound<C(!new)>(s: State<C>, c: C, ip: Option<Bytes>, first: Family)
    requires Sound(s, first) && c !in s.past.given
    ensures Sound(Answered(s, c, ip), first)
  {
    hide Askable;
    DistinctSnoc(s.past.called, c);
    var t := Answered(s, c, ip);
    assert Accounted(t);
    assert Owned(t) && Placed(t);
  }

  lemma OpenedSound<C(!new)>(s: State<C>, h: Bytes, c: C, first: Family)
    requires Sound(s, first) && c !in s.past.given && h !in s.waiters && Askable(h)
    ensures Sound(Opened(s, h, c, first), first)
  {
    hide Askable;
    var t := Opened(s, h, c, first);
    assert c !in s.past.place;
    OpenedPlaced(s, h, c, first);
    OpenedOwned(s, h, c, first);
    OpenedBooks(s, h, c, first);
    OpenedAccounted(s, h, c, first);
    hide Placed, Owned, Books, SwitchedOnce, Accounted;
  }

  lemma OpenedAccounted<C(!new)>(s: State<C>, h: Bytes, c: C, first: Family)
    requires Accounted(s) && c !in s.past.given
    ensures Accounted(Opened(s, h, c, first))
  {
    hide Elements, Distinct;
    assert Opened(s, h, c, first).past.place.Keys == s.past.place.Keys + {c};
  }

  lemma OpenedBooks<C(!new)>(s: State<C>, h: Bytes, c: C, first: Family)
    requires Books(s) && SwitchedOnce(s, first) && h !in s.waiters
    ensures Books(Opened(s, h, c, first)) && SwitchedOnce(Opened(s, h, c, first), first)
  {
  }

  lemma OpenedOwned<C(!new)>(s: State<C>, h: Bytes, c: C, first: Family)
    requires Owned(s) && c !in s.past.place
    ensures Owned(Opened(s, h, c, first))
  {
  }

  lemma OpenedPlaced<C(!new)>(s: State<C>, h: Bytes, c: C, first: Family)
    requires Placed(s) && c !in s.past.place && h !in s.waiters
    ensures Placed(Opened(s, h, c, first))
  {
    var t := Opened(s, h, c, first);
    forall k, d {:trigger d in t.waiters[k]} | k in t.waiters && d in t.waiters[k]
      ensures d in t.past.place && t.past.place[d] == k
    {
      if k != h {
        assert d in s.waiters[k];
      }
    }
  }

  lemma JoinedSound<C(!new)>(s: State<C>, h: Bytes, c: C, first: Family)
    requires Sound(s, first) && c !in s.past.given && h in s.waiters
    ensures Sound(Joined(s, h, c), first)
  {
    hide Askable;
    assert c !in s.past.place && c !in s.past.openers;
    JoinedPlaced(s, h, c);
    JoinedOwned(s, h, c);
    JoinedAccounted(s, h, c);
    hide Placed, Owned, Accounted, SwitchedOnce;
  }

  lemma JoinedAccounted<C(!new)>(s: State<C>, h: Bytes, c: C)
    requires Accounted(s) && c !in s.past.given && h in s.waiters
    ensures Accounted(Joined(s, h, c))
  {
    hide Elements, Distinct;
    assert Joined(s, h, c).past.place.Keys == s.past.place.Keys + {c};
  }

  lemma JoinedOwned<C(!new)>(s: State<C>, h: Bytes, c: C)
    requires Owned(s) && c !in s.past.place && c !in s.past.openers && h in s.waiters
    ensures Owned(Joined(s, h, c))
  {
  }

  lemma JoinedPlaced<C(!new)>(s: State<C>, h: Bytes, c: C)
    requires Placed(s) && c !in s.past.place && h in s.waiters
    ensures Placed(Joined(s, h, c))
  {
    var t := Joined(s, h, c);
    assert c !in s.waiters[h];
    DistinctSnoc(s.waiters[h], c);
    forall k, d {:trigger d in t.waiters[k]} | k in t.waiters && d in t.waiters[k]
      ensures d in t.past.place && t.past.place[d] == k
    {
      assert d != c ==> d in s.waiters[k];
    }
    forall d {:trigger t.past.place[d]} | d in t.past.place
      ensures t.past.place[d] in t.waiters && d in t.waiters[t.past.place[d]]
    {
      assert d != c ==> d in s.waiters[s.past.place[d]];
    }
  }

  lemma SwitchedSound<C(!new)>(s: State<C>, h: Bytes, first: Family)
    requires Sound(s, first) && h in s.status && s.status[h] == first
    ensures h in s.past.switches && Sound(Switched(s, h, Other(first)), first)
  {
    hide Askable, Elements, Distinct;
    var t := Switched(s, h, Other(first));
    assert Placed(t) && Owned(t) && Accounted(t);
  }

  lemma ClosedSound<C(!new)>(s: State<C>, h: Bytes, ip: Option<Bytes>, first: Family)
    requires Sound(s, first) && h in s.waiters
    ensures Sound(Closed(s, h, ip), first)
  {
    hide Askable;
    var t := Closed(s, h, ip);
    assert Books(t);
    assert Placed(t) by {
      ClosedPlaced(s, h, ip);
    }
    assert Owned(t) by {
      ClosedOwned(s, h, ip);
    }
    assert Accounted(t) by {
      ClosedAccounted(s, h, ip);
    }
  }

  lemma ClosedPlaced<C(!new)>(s: State<C>, h: Bytes, ip: Option<Bytes>)
    requires Placed(s) && h in s.waiters
    ensures Placed(Closed(s, h, ip))
  {
    var t := Closed(s, h, ip);
    forall k, d {:trigger d in t.waiters[k]} | k in t.waiters && d in t.waiters[k]
      ensures d in t.past.place && t.past.place[d] == k
    {
      assert d in s.waiters[k] && s.past.place[d] == k;
    }
    forall d {:trigger t.past.place[d]} | d in t.past.place
      ensures t.past.place[d] in t.waiters && d in t.waiters[t.past.place[d]]
    {
      assert d in s.waiters[s.past.place[d]];
    }
  }

  lemma ClosedOwned<C(!new)>(s: State<C>, h: Bytes, ip: Option<Bytes>)
    requires Owned(s) && h in s.waiters
    ensures Owned(Closed(s, h, ip))
  {
  }

  lemma WaitersAreFresh<C(!new)>(s: State<C>, h: Bytes)
    requires Placed(s) && Accounted(s) && h in s.waiters
    ensures Elements(s.waiters[h]) <= s.past.place.Keys && Distinct(s.waiters[h])
    ensures Elements(s.past.called) !! Elements(s.waiters[h])
  {
    forall c | c in Elements(s.waiters[h])
      ensures c in s.past.place
    {
      assert c in s.waiters[h];
    }
  }

  lemma ClosedAccounted<C(!new)>(s: State<C>, h: Bytes, ip: Option<Bytes>)
    requires Placed(s) && Accounted(s) && h in s.waiters
    ensures Accounted(Closed(s, h, ip))
  {
    WaitersAreFresh(s, h);
    DistinctAppend(s.past.called, s.waiters[h]);
    hide Elements, Distinct;
    var p, q, gone := s.past, Closed(s, h, ip).past, Elements(s.waiters[h]);
    assert q.place.Keys == p.place.Keys - gone;
    assert Elements(q.called) == Elements(p.called) + gone;
  }

  lemma RemovedSound<C(!new)>(s: State<C>, h: Bytes, c: C, first: Family)
    requires Sound(s, first) && c in s.owner && s.owner[c] == h
    ensures h in s.waiters && c in s.waiters[h] && Sound(Removed(s, h, c), first)
  {
    hide Askable;
    assert s.past.place[c] == h;
    WithoutDistinct(s.waiters[h], c);
    var t := Removed(s, h, c);
    assert Books(t) && SwitchedOnce(t, first);
    assert Placed(t) by {
      RemovedPlaced(s, h, c);
    }
    assert Owned(t) by {
      RemovedOwned(s, h, c);
    }
    assert Accounted(t) by {
      RemovedAccounted(s, h, c);
    }
  }

  lemma RemovedOwned<C(!new)>(s: State<C>, h: Bytes, c: C)
    requires Owned(s) && h in s.waiters
    ensures Owned(Removed(s, h, c))
  {
  }

  lemma RemovedAccounted<C(!new)>(s: State<C>, h: Bytes, c: C)
    requires Accounted(s) && h in s.waiters && c in s.past.place
    ensures Accounted(Removed(s, h, c))
  {
    hide Elements, Distinct;
    var q := Removed(s, h, c).past;
    assert q.place.Keys == s.past.place.Keys - {c};
  }

  lemma RemovedPlaced<C(!new)>(s: State<C>, h: Bytes, c: C)
    requires Placed(s) && h in s.waiters && c in s.waiters[h]
    ensures Placed(Removed(s, h, c))
  {
    var t := Removed(s, h, c);
    WithoutDistinct(s.waiters[h], c);
    var rest := OD.Without(s.waiters[h], c);
    assert forall d :: d in rest <==> d in Elements(rest);
    forall k, d {:trigger d in t.waiters[k]} | k in t.waiters && d in t.waiters[k]
      ensures d in t.past.place && t.past.place[d] == k
    {
      assert d in s.waiters[k];
      assert s.past.place[c] == h;
    }
    forall d {:trigger t.past.place[d]} | d in t.past.place
      ensures t.past.place[d] in t.waiters && d in t.waiters[t.past.place[d]]
    {
      assert d in s.waiters[s.past.place[d]];
    }
  }

  /** Over any history: no callback is invoked twice; one that waits or was removed has not been invoked; and a waiting
      callback can be removed if and only if it opened its query. */
  lemma SoundMeans<C(!new)>(s: State<C>, first: Family, c: C)
    requires Sound(s, first) && c in s.past.given
    ensures multiset(s.past.called)[c] <= 1
    ensures c in s.past.place || c in s.past.removed <==> multiset(s.past.called)[c] == 0
    ensures c in s.past.place ==> (c in s.owner <==> c in s.past.openers)
    ensures c in s.past.removed ==> c !in s.owner
  {
    hide Askable;
    DistinctCounts(s.past.called, c);
  }

  lemma DistinctCounts<C(!new)>(s: seq<C>, c: C)
    requires Distinct(s)
    ensures multiset(s)[c] == if c in Elements(s) then 1 else 0
  {
    if s != [] {
      DistinctCounts(s[1..], c);
      assert s == [s[0]] + s[1..];
      assert c in Elements(s) <==> c == s[0] || c in Elements(s[1..]);
    }
  }

  // ----- the resolver -----

  /** What resolve does with a host name before it asks anyone. */
  datatype Local = Known(ip: Bytes) | Refused | Ask

  /** What a callback is told that is answered at once. */
  function ToldAtOnce(local: Local): Option<Bytes> {
    if local.Known? then Some(local.ip) else None
  }

  /** What a resolver is configured with: whether it runs in Python 2, the test for addresses, the hosts file and the
      suffixes that are blocked. */
  datatype Checks = Checks(python2: bool, isIp: Bytes -> bool, hosts: map<Bytes, Bytes>, black: seq<Bytes>)

  predicate EndsWith(h: Bytes, t: Bytes) {
    |t| <= |h| && h[|h| - |t|..] == t
  }

  predicate EndsWithAny(h: Bytes, black: seq<Bytes>) {
    exists i :: 0 <= i < |black| && EndsWith(h, black[i])
  }

  /** The checks of resolve, in their order. */
  function Look(k: Checks, cache: map<Bytes, Bytes>, h: Bytes): Local {
    if h == [] then Refused
    else if k.isIp(h) then Known(h)
    else if h in k.hosts then Known(k.hosts[h])
    else if h in cache then Known(cache[h])
    else if EndsWithAny(h, k.black) || !ValidHost(k.python2, h) then Refused
    else Ask
  }

  /** A name that is asked about is known by its answer if and only if it has no dot at the end and no label longer than
      63 bytes, which takes a newline at the end of one. */
  lemma {:induction false} AskedIsKnown(k: Checks, cache: map<Bytes, Bytes>, pr: Printer, id: Bytes, h: Bytes, q: U16,
                                        depth: nat)
    requires |id| == 2 && Look(k, cache, h) == Ask
    ensures h != [] && (Askable(h) <==> Encodable(SplitDots(h, [])))
    ensures Recovers(pr, id, h, q, depth) <==> h[|h| - 1] != DOT && Encodable(SplitDots(h, []))
  {
    hide Recovers, ValidHost, Askable, Encodable, SplitDots;
    ValidHostRecovered(k.python2, pr, id, h, q, depth);
  }

  /** The first address in a response. */
  function FirstIp(answers: seq<Answer>): Bytes {
    if answers == [] then []
    else if (answers[0].atype == QTYPE_A || answers[0].atype == QTYPE_AAAA) && answers[0].aclass == QCLASS_IN
    then answers[0].addr
    else FirstIp(answers[1..])
  }

  /** The address that the waiters are told, or none. */
  function AddressIn(r: Response): Option<Bytes> {
    if FirstIp(r.answers) == [] then None else Some(FirstIp(r.answers))
  }

  predicate Asks(questions: seq<Question>, qtype: U16) {
    exists i :: 0 <= i < |questions| && questions[i].qtype == qtype
  }

  predicate Pending<C(!new)>(s: State<C>, h: Bytes) {
    h in s.status && h in s.waiters && h in s.past.switches
  }

  /** What a response does to a stuck name; a switch of the family fails like the query. */
  ghost function AfterStuck<C(!new)>(s: State<C>, r: Response, h: Bytes, first: Family): State<C>
    requires h in s.stuck
  {
    var ip := FirstIp(r.answers);
    if ip == [] && s.stuck[h] == first then s.(stuck := s.stuck[h := Other(first)])
    else if ip != [] || Asks(r.questions, QueryType(Other(first))) then s.(stuck := s.stuck - {h})
    else s
  }

  /** What a response does to a pending host name. */
  ghost function AfterData<C(!new)>(s: State<C>, r: Response, first: Family): State<C> {
    if r.hostname == None || r.hostname.value == [] then s
    else
      var h, ip := r.hostname.value, FirstIp(r.answers);
      if h in s.stuck then AfterStuck(s, r, h, first)
      else if !Pending(s, h) then s
      else if ip == [] && s.status[h] == first then Switched(s, h, Other(first))
      else if ip != [] || Asks(r.questions, QueryType(Other(first))) then Closed(s, h, AddressIn(r))
      else s
  }

  /** The query of a pending host name goes on in the other family. */
  ghost predicate Switches<C(!new)>(s: State<C>, r: Response, first: Family) {
    && r.hostname.Some? && r.hostname.value != []
    && r.hostname.value in s.status && s.status[r.hostname.value] == first && FirstIp(r.answers) == []
  }

  ghost function AfterResolve<C(!new)>(s: State<C>, h: Bytes, c: C, local: Local, first: Family): State<C> {
    if !local.Ask? then Answered(s, c, ToldAtOnce(local))
    else if h in s.waiters then Joined(s, h, c)
    else if Askable(h) then Opened(s, h, c, first)
    else s.(stuck := s.stuck[h := first])
  }

  /** A call of resolve that raises, because the request cannot be built: the callback is forgotten. */
  predicate Raises<C>(e: Event<C>) {
    e.Resolves? && e.local.Ask? && !Askable(e.h)
  }

  ghost function AfterRemove<C(!new)>(s: State<C>, c: C): State<C> {
    if c in s.owner && s.owner[c] in s.waiters then Removed(s, s.owner[c], c) else s
  }

  // ----- runs -----

  datatype Event<C> = Resolves(h: Bytes, c: C, local: Local) | Receives(response: Response) | Removes(c: C)

  ghost function After<C(!new)>(s: State<C>, e: Event<C>, first: Family): State<C> {
    match e
    case Resolves(h, c, local) => AfterResolve(s, h, c, local, first)
    case Receives(response) => AfterData(s, response, first)
    case Removes(c) => AfterRemove(s, c)
  }

  /** Every call of resolve brings a new callback. */
  ghost predicate Possible<C(!new)>(s: State<C>, e: Event<C>) {
    e.Resolves? ==> e.c !in s.past.given
  }

  lemma AfterSound<C(!new)>(s: State<C>, e: Event<C>, first: Family)
    requires Sound(s, first) && Possible(s, e)
    ensures Sound(After(s, e, first), first) && s.past.called <= After(s, e, first).past.called
  {
    hide Placed, Owned, Accounted, SwitchedOnce, Sound, FirstIp, Asks, Books;
    SoundBooks(s, first);
    match e {
      case Resolves(h, c, local) =>
        if !local.Ask? {
          AnsweredSound(s, c, ToldAtOnce(local), first);
        } else if h in s.waiters {
          JoinedSound(s, h, c, first);
        } else if Askable(h) {
          OpenedSound(s, h, c, first);
        } else {
          StuckSound(s, s.stuck[h := first], first);
        }
      case Receives(r) => DataSound(s, r, first);
      case Removes(c) =>
        if c in s.owner {
          RemovedSound(s, s.owner[c], c, first);
        }
    }
  }

  lemma SoundBooks<C(!new)>(s: State<C>, first: Family)
    requires Sound(s, first)
    ensures Books(s) && s.status.Keys == s.waiters.Keys == s.past.switches.Keys && s.stuck.Keys !! s.waiters.Keys
  {
    hide Askable;
  }

  /** Stuck names are nobody's business. */
  lemma StuckSound<C(!new)>(s: State<C>, stuck: map<Bytes, Family>, first: Family)
    requires Sound(s, first)
    requires forall h {:trigger Askable(h)} {:trigger stuck[h]} :: h in stuck ==> h in s.stuck || !Askable(h)
    ensures Sound(s.(stuck := stuck), first)
  {
    hide Askable;
    assert Placed(s.(stuck := stuck)) && Accounted(s.(stuck := stuck));
  }

  lemma DataSound<C(!new)>(s: State<C>, r: Response, first: Family)
    requires Sound(s, first)
    ensures Sound(AfterData(s, r, first), first) && s.past.called <= AfterData(s, r, first).past.called
  {
    hide Placed, Owned, Accounted, SwitchedOnce, Sound, FirstIp, Asks, Books;
    SoundBooks(s, first);
    if r.hostname.Some? && r.hostname.value in s.stuck {
      var h := r.hostname.value;
      StuckSound(s, s.stuck[h := Other(first)], first);
      StuckSound(s, s.stuck - {h}, first);
    } else if r.hostname.Some? && r.hostname.value in s.status {
      var h := r.hostname.value;
      ClosedSound(s, h, AddressIn(r), first);
      if s.status[h] == first {
        SwitchedSound(s, h, first);
      }
    }
  }

  ghost function Run<C(!new)>(s: State<C>, events: seq<Event<C>>, first: Family): State<C>
    decreases |events|
  {
    if events == [] then s else Run(After(s, events[0], first), events[1..], first)
  }

  /** No two calls of resolve bring the same callback. */
  ghost predicate DistinctCallbacks<C(!new)>(events: seq<Event<C>>) {
    forall i, j :: 0 <= i < j < |events| && events[i].Resolves? && events[j].Resolves? ==> events[i].c != events[j].c
  }

  ghost function Fresh<C(!new)>(): State<C> {
    State(map[], map[], map[], History(map[], {}, {}, [], map[], {}, map[]), map[])
  }

  /** What has been given is what resolve has brought, but for calls that raise. */
  lemma GivenAfter<C(!new)>(s: State<C>, e: Event<C>, first: Family)
    ensures After(s, e, first).past.given
         == s.past.given + if e.Resolves? && (e.h in s.waiters || !Raises(e)) then {e.c} else {}
  {
    hide FirstIp, Asks, Askable, Elements;
  }

  lemma {:induction false} RunKeepsSound<C(!new)>(s: State<C>, events: seq<Event<C>>, first: Family)
    requires Sound(s, first) && DistinctCallbacks(events) && forall i :: 0 <= i < |events| ==> Possible(s, events[i])
    ensures Sound(Run(s, events, first), first)
    decreases |events|
  {
    hide Sound, After;
    if events != [] {
      AfterSound(s, events[0], first);
      GivenAfter(s, events[0], first);
      RunKeepsSound(After(s, events[0], first), events[1..], first);
    }
  }

  /** Whatever calls are made and responses arrive, in whatever order: no callback is invoked twice, status and waiters
      have the same host names but for the stuck ones, for which no request can be built, everybody who can be removed
      is waiting where the resolver believes, and no pending query has switched its family twice. */
  lemma {:induction false} EveryRun<C(!new)>(events: seq<Event<C>>, first: Family, c: C)
    requires DistinctCallbacks(events)
    ensures var s := Run(Fresh<C>(), events, first);
            && multiset(s.past.called)[c] <= 1
            && s.status.Keys == s.waiters.Keys && s.stuck.Keys !! s.waiters.Keys
            && (forall h {:trigger Askable(h)} :: h in s.stuck ==> !Askable(h))
            && (c in s.owner ==> s.owner[c] in s.waiters && c in s.waiters[s.owner[c]])
            && (forall h :: h in s.past.switches ==> s.past.switches[h] <= 1)
  {
    hide Askable;
    assert Sound(Fresh<C>(), first);
    RunKeepsSound(Fresh<C>(), events, first);
    hide Run;
    var s := Run(Fresh<C>(), events, first);
    DistinctCounts(s.past.called, c);
    if c in s.owner {
      assert s.past.place[c] == s.owner[c];
    }
  }

  /** A second callback for a pending name cannot be taken back: removing it changes nothing, and it is still
      invoked. */
  lemma SecondWaiterStays<C(!new)>(s: State<C>, h: Bytes, a: C, b: C, first: Family)
    requires Sound(s, first) && h !in s.waiters && Askable(h) && a != b && a !in s.past.given && b !in s.past.given
    ensures var two := Joined(Opened(s, h, a, first), h, b);
            && AfterRemove(two, b) == two
            && forall ip :: Closed(two, h, ip).past.called == s.past.called + [a, b]
  {
    hide Askable;
    var one := Opened(s, h, a, first);
    assert b !in one.owner;
    assert one.waiters[h] + [b] == [a, b];
  }

  /** A valid host name for which no request can be built: resolve raises, and a status is left behind for which nobody
      waits. */
  lemma StatusLeftBehind<C(!new)>(python2: bool, h: Bytes, c: C, first: Family)
    requires |h| == MAX_LABEL + 1 && h[MAX_LABEL] == NEWLINE && forall i :: 0 <= i < MAX_LABEL ==> h[i] == 97
    ensures Look(Checks(python2, _ => false, map[], []), map[], h) == Ask
    ensures Raises(Resolves(h, c, Ask))
    ensures After(Fresh(), Resolves(h, c, Ask), first) == Fresh().(stuck := map[h := first])
  {
    hide Askable;
    ValidNotAskable(python2, h);
  }

  /** The statuses of the names that can be asked about, or of the others. */
  function Part(status: map<Bytes, Family>, askable: bool): map<Bytes, Family> {
    map h | h in status && Askable(h) == askable :: status[h]
  }

  lemma PartSet(status: map<Bytes, Family>, h: Bytes, f: Family, askable: bool)
    ensures Part(status[h := f], askable)
         == if Askable(h) == askable then Part(status, askable)[h := f] else Part(status, askable)
  {
    hide Askable;
  }

  lemma InPart(status: map<Bytes, Family>, h: Bytes)
    ensures h in Part(status, true) <==> h in status && Askable(h)
    ensures h in Part(status, false) <==> h in status && !Askable(h)
    ensures h in status ==> Part(status, Askable(h))[h] == status[h]
  {
    hide Askable;
  }

  lemma PartDrop(status: map<Bytes, Family>, h: Bytes, askable: bool)
    ensures Part(status - {h}, askable) == Part(status, askable) - {h}
  {
    hide Askable;
  }

  class DnsResolver<C(==, !new)> {
    /** The family asked for first: IPv6 where connections over it are supported. */
    const first: Family
    const checks: Checks
    var status: map<Bytes, Family>
    var waiters: map<Bytes, seq<C>>
    var owner: map<C, Bytes>
    var cache: map<Bytes, Bytes>
    ghost var past: History<C>
    ghost var sent: seq<(Bytes, U16)>

    ghost function View(): State<C>
      reads this
    {
      State(Part(status, true), waiters, owner, past, Part(status, false))
    }

    ghost predicate Valid()
      reads this
    {
      Sound(View(), first)
    }

    constructor (ipv6: bool, checks: Checks)
      ensures Valid() && first == (if ipv6 then V6 else V4) && this.checks == checks
      ensures View() == Fresh<C>() && sent == []
    {
      first := if ipv6 then V6 else V4;
      this.checks := checks;
      status, waiters, owner, cache := map[], map[], map[], map[];
      past := History(map[], {}, {}, [], map[], {}, map[]);
      sent := [];
    }

    /** Answers at once, opens a query or joins one. When the request cannot be built, the exception leaves the status
        behind and nobody waiting. */
    method Resolve(h: Bytes, callback: C) returns (local: Local, raised: bool)
      requires Valid() && callback !in past.given
      modifies this`status, this`waiters, this`owner, this`past, this`sent
      ensures Valid() && local == Look(checks, cache, h) && (raised <==> local.Ask? && !Askable(h))
      ensures View() == AfterResolve(old(View()), h, callback, local, first)
      ensures sent == old(sent) + if local.Ask? && !raised then [(h, QueryType(first))] else []
    {
      hide Books, Placed, Owned, Accounted, SwitchedOnce, Look, Askable, Part;
      local, raised := Look(checks, cache, h), false;
      if !local.Ask? {
        AnsweredSound(View(), callback, ToldAtOnce(local), first);
        past := Answered(View(), callback, ToldAtOnce(local)).past;
      } else if h !in waiters {
        raised := Open(h, callback);
      } else {
        JoinedSound(View(), h, callback, first);
        past := Joined(View(), h, callback).past;
        waiters := waiters[h := waiters[h] + [callback]];
        raised := SendReq(h, QueryType(first));
      }
    }

    method Open(h: Bytes, callback: C) returns (raised: bool)
      requires Valid() && callback !in past.given && h !in waiters
      modifies this`status, this`waiters, this`owner, this`past, this`sent
      ensures Valid() && (raised <==> !Askable(h))
      ensures View() == AfterResolve(old(View()), h, callback, Ask, first)
      ensures sent == old(sent) + if !raised then [(h, QueryType(first))] else []
    {
      hide Sound, Askable, Part;
      ghost var before := View();
      PartSet(status, h, first, true);
      PartSet(status, h, first, false);
      status := status[h := first];
      raised := SendReq(h, QueryType(first));
      if raised {
        StuckSound(before, before.stuck[h := first], first);
        return;
      }
      OpenedSound(before, h, callback, first);
      past := Opened(before, h, callback, first).past;
      waiters := waiters[h := [callback]];
      owner := owner[callback := h];
    }

    /** Invokes everybody who waits for h. */
    method CallCallback(h: Bytes, ip: Option<Bytes>)
      requires Valid()
      modifies this`status, this`waiters, this`owner, this`past
      ensures Valid()
      ensures var before := old(View());
              View() == if h in old(waiters) then Closed(before, h, ip) else before.(stuck := before.stuck - {h})
    {
      hide Part, Askable, Placed, Owned, Accounted, SwitchedOnce, Told;
      ghost var before, all := View(), status;
      var callbacks := if h in waiters then waiters[h] else [];
      ghost var called, told := past.called, past.told;
      ToldNobody(told, ip);
      var i := 0;
      while i < |callbacks|
        invariant i <= |callbacks| && called == before.past.called + callbacks[..i]
        invariant told == Told(before.past.told, Elements(callbacks[..i]), ip)
        invariant owner == before.owner - Elements(callbacks[..i])
        invariant status == all && waiters == before.waiters && past == before.past
      {
        owner := owner - {callbacks[i]};
        ToldOneMore(before.past.told, Elements(callbacks[..i]), callbacks[i], ip);
        called, told := called + [callbacks[i]], told[callbacks[i] := ip];
        assert callbacks[..i + 1] == callbacks[..i] + [callbacks[i]];
        assert Elements(callbacks[..i + 1]) == Elements(callbacks[..i]) + {callbacks[i]};
        i := i + 1;
      }
      assert callbacks[..i] == callbacks;
      if h in waiters {
        ClosedSound(before, h, ip, first);
        NotStuck(before, h, first);
        past := Closed(before, h, ip).past.(called := called, told := told);
      } else {
        assert owner == before.owner;
        NotPending(before, h, first);
        StuckSound(before, before.stuck - {h}, first);
      }
      Forget(h);
    }

    method Forget(h: Bytes)
      modifies this`status, this`waiters
      ensures var before := old(View());
              View() == before.(status := before.status - {h}, waiters := before.waiters - {h},
                                stuck := before.stuck - {h})
    {
      hide Part;
      PartDrop(status, h, true);
      PartDrop(status, h, false);
      waiters := waiters - {h};
      status := status - {h};
    }

    /** Sends a request, if it can be built. */
    method SendReq(h: Bytes, qtype: U16) returns (raised: bool)
      modifies this`sent
      ensures raised <==> !Askable(h)
      ensures sent == old(sent) + if raised then [] else [(h, qtype)]
    {
      raised := !Askable(h);
      if !raised {
        sent := sent + [(h, qtype)];
      }
    }

    /** The query goes on in the other family. */
    method SwitchFamily(h: Bytes) returns (raised: bool)
      requires Valid() && h in status && status[h] == first
      modifies this`status, this`past, this`sent
      ensures Valid() && (raised <==> h in old(View()).stuck)
      ensures sent == old(sent) + if raised then [] else [(h, QueryType(Other(first)))]
      ensures var before := old(View());
              if raised then View() == before.(stuck := before.stuck[h := Other(first)])
              else h in before.past.switches && View() == Switched(before, h, Other(first))
    {
      hide Part, Askable, Books, Placed, Owned, Accounted, SwitchedOnce;
      ghost var before := View();
      InPart(status, h);
      PartSet(status, h, Other(first), true);
      PartSet(status, h, Other(first), false);
      if Askable(h) {
        SwitchedSound(before, h, first);
        past := Switched(before, h, Other(first)).past;
      } else {
        StuckSound(before, before.stuck[h := Other(first)], first);
      }
      status := status[h := Other(first)];
      raised := SendReq(h, QueryType(Other(first)));
    }

    /** A response has arrived. The address family is switched once, when the first one has no address. */
    method HandleData(r: Response) returns (raised: bool)
      requires Valid()
      modifies this`status, this`waiters, this`owner, this`past, this`cache, this`sent
      ensures Valid()
      ensures View() == AfterData(old(View()), r, first)
      ensures raised ==> r.hostname.Some? && r.hostname.value in old(View()).stuck
      ensures sent == old(sent) + if Switches(old(View()), r, first) then [(r.hostname.value, QueryType(Other(first)))]
                                  else []
      ensures cache == if r.hostname.Some? && r.hostname.value != [] && FirstIp(r.answers) != []
                       then old(cache)[r.hostname.value := FirstIp(r.answers)] else old(cache)
    {
      hide Sound, Books, Closed, Asks, FirstIp, Part, Askable, Switched;
      raised := false;
      if r.hostname == None || r.hostname.value == [] {
        return;
      }
      SoundBooks(View(), first);
      var h, ip := r.hostname.value, FirstIp(r.answers);
      InPart(status, h);
      if ip == [] && (if h in status then status[h] else Other(first)) == first {
        raised := SwitchFamily(h);
      } else if ip != [] {
        cache := cache[h := ip];
        CallCallback(h, Some(ip));
      } else if h in status && status[h] == Other(first) && Asks(r.questions, QueryType(Other(first))) {
        CallCallback(h, None);
      }
    }

    /** Takes a callback off its list; silently does nothing for one that joined a query opened by another. */
    method RemoveCallback(callback: C)
      requires Valid()
      modifies this`status, this`waiters, this`owner, this`past
      ensures Valid()
      ensures View() == AfterRemove(old(View()), callback)
    {
      hide Placed, Owned, Accounted, SwitchedOnce, Books, Part, Askable;
      if callback !in owner {
        return;
      }
      var h := owner[callback];
      RemovedSound(View(), h, callback, first);
      NotStuck(View(), h, first);
      past := Removed(View(), h, callback).past;
      owner := owner - {callback};
      var arr := OD.Without(waiters[h], callback);
      if arr == [] {
        Forget(h);
      } else {
        waiters := waiters[h := arr];
      }
    }
  }

  lemma NotStuck<C(!new)>(s: State<C>, h: Bytes, first: Family)
    requires Sound(s, first) && h in s.waiters
    ensures s.stuck - {h} == s.stuck
  {
    hide Askable;
  }

  lemma NotPending<C(!new)>(s: State<C>, h: Bytes, first: Family)
    requires Sound(s, first) && h !in s.waiters
    ensures s.waiters - {h} == s.waiters && s.status - {h} == s.status
  {
    hide Askable;
  }
}
