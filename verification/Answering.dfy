/**
 * Who is answered, when, and with what: what each event means for the callbacks that wait, and whole runs from the call
 * of resolve to the response that answers it.
 */
module Answering {
  import opened ByteStrings
  import opened DnsCodec
  import opened DnsMessage
  import opened HostNames
  import opened Options
  import opened Resolver
  import OD = OrderedDictionary

  // ----- what a response says -----

  /** An A or AAAA record of class IN. */
  predicate IsAddress(a: Answer) {
    (a.atype == 1 || a.atype == 28) && a.aclass == 1
  }

  /** The first address of a response is its answer number i. */
  predicate FirstAddress(answers: seq<Answer>, i: nat) {
    i < |answers| && IsAddress(answers[i]) && forall j :: 0 <= j < i ==> !IsAddress(answers[j])
  }

  /** The query type of a family. */
  function TypeOf(f: Family): U16 {
    match f
    case V4 => 1
    case V6 => 28
  }

  /** Somebody who waits for the name is told this address. */
  ghost predicate Gives(r: Response, h: Bytes, ip: Bytes) {
    r.hostname == Some(h) && h != [] && ip != []
    && exists i: nat :: FirstAddress(r.answers, i) && r.answers[i].addr == ip
  }

  /** A response for the name without an address. */
  ghost predicate GivesNone(r: Response, h: Bytes) {
    && r.hostname == Some(h) && h != []
    && forall i: nat :: FirstAddress(r.answers, i) ==> r.answers[i].addr == []
  }

  lemma {:induction false} FirstIpIs(answers: seq<Answer>, i: nat)
    requires FirstAddress(answers, i)
    ensures FirstIp(answers) == answers[i].addr
  {
    if i > 0 {
      assert !IsAddress(answers[0]);
      FirstIpIs(answers[1..], i - 1);
    }
  }

  lemma FirstBehind(answers: seq<Answer>, i: nat)
    requires answers != [] && !IsAddress(answers[0]) && FirstAddress(answers[1..], i)
    ensures FirstAddress(answers, i + 1)
  {
    assert forall j :: 0 < j <= i ==> answers[j] == answers[1..][j - 1];
  }

  lemma {:induction false} NoFirstIp(answers: seq<Answer>)
    requires forall i: nat :: !FirstAddress(answers, i)
    ensures FirstIp(answers) == []
    decreases |answers|
  {
    if answers != [] {
      assert !FirstAddress(answers, 0);
      forall i: nat
        ensures !FirstAddress(answers[1..], i)
      {
        if FirstAddress(answers[1..], i) {
          FirstBehind(answers, i);
        }
      }
      NoFirstIp(answers[1..]);
    }
  }

  lemma ReadsAddress(r: Response, h: Bytes, ip: Bytes)
    ensures Gives(r, h, ip) ==> FirstIp(r.answers) == ip
    ensures GivesNone(r, h) ==> FirstIp(r.answers) == []
  {
    if Gives(r, h, ip) {
      var i: nat :| FirstAddress(r.answers, i) && r.answers[i].addr == ip;
      FirstIpIs(r.answers, i);
    }
    if GivesNone(r, h) {
      if i: nat :| FirstAddress(r.answers, i) {
        FirstIpIs(r.answers, i);
      } else {
        NoFirstIp(r.answers);
      }
    }
  }

  // ----- what a response does -----

  /** All who wait for the name are invoked, in order, with this answer; nobody else is, and the query is over. */
  ghost predicate Invokes<C(!new)>(s: State<C>, t: State<C>, h: Bytes, ip: Option<Bytes>)
    requires h in s.waiters
  {
    && t.past.called == s.past.called + s.waiters[h]
    && (forall c {:trigger c in t.past.told} :: c in s.waiters[h] ==> c in t.past.told && t.past.told[c] == ip)
    && (forall c {:trigger c in s.past.told} :: c in s.past.told && c !in s.waiters[h] ==>
          c in t.past.told && t.past.told[c] == s.past.told[c])
    && t.waiters == s.waiters - {h} && t.status == s.status - {h} && t.stuck == s.stuck
    && (forall c {:trigger c in t.owner} :: c in t.owner <==> c in s.owner && c !in s.waiters[h])
  }

  /** A response with an address answers all who wait for its name. */
  lemma AddressAnswers<C(!new)>(s: State<C>, r: Response, h: Bytes, ip: Bytes, first: Family)
    requires Sound(s, first) && h in s.waiters && Gives(r, h, ip)
    ensures Invokes(s, After(s, Receives(r), first), h, Some(ip))
  {
    hide Askable, FirstIp, Asks, Placed, Owned, Accounted, SwitchedOnce, Gives;
    assert r.hostname == Some(h) && h != [] && ip != [] by {
      GivesFor(r, h, ip);
    }
    ReadsAddress(r, h, ip);
  }

  lemma GivesFor(r: Response, h: Bytes, ip: Bytes)
    ensures Gives(r, h, ip) ==> r.hostname == Some(h) && h != [] && ip != []
    ensures GivesNone(r, h) ==> r.hostname == Some(h) && h != []
  {
  }

  /** Without an address, a query in its first family goes on in the other, and one in the other is answered with an
      error if and only if the response is to a question of that family. */
  lemma NoAddressSwitches<C(!new)>(s: State<C>, r: Response, h: Bytes, first: Family)
    requires Sound(s, first) && h in s.waiters && GivesNone(r, h)
    ensures h in s.status
    ensures var t := After(s, Receives(r), first);
            if s.status[h] == first then
              && t.status == s.status[h := if first == V4 then V6 else V4]
              && t.waiters == s.waiters && t.owner == s.owner && t.stuck == s.stuck
              && t.past.called == s.past.called && t.past.told == s.past.told
            else if exists i :: 0 <= i < |r.questions| && r.questions[i].qtype == TypeOf(s.status[h]) then
              Invokes(s, t, h, None)
            else t == s
  {
    SoundBooks(s, first);
    hide Sound, GivesNone, After, Invokes;
    if s.status[h] == first {
      GoesOn(s, r, h, first);
    } else {
      EndsWithError(s, r, h, first);
    }
  }

  lemma GoesOn<C(!new)>(s: State<C>, r: Response, h: Bytes, first: Family)
    requires Sound(s, first) && h in s.waiters && GivesNone(r, h) && h in s.status && s.status[h] == first
    ensures var t := After(s, Receives(r), first);
            && t.status == s.status[h := if first == V4 then V6 else V4]
            && t.waiters == s.waiters && t.owner == s.owner && t.stuck == s.stuck
            && t.past.called == s.past.called && t.past.told == s.past.told
  {
    hide Askable, FirstIp, Asks, Placed, Owned, Accounted, SwitchedOnce, GivesNone;
    GivesFor(r, h, []);
    ReadsAddress(r, h, []);
  }

  lemma EndsWithError<C(!new)>(s: State<C>, r: Response, h: Bytes, first: Family)
    requires Sound(s, first) && h in s.waiters && GivesNone(r, h) && h in s.status && s.status[h] != first
    ensures var t := After(s, Receives(r), first);
            if exists i :: 0 <= i < |r.questions| && r.questions[i].qtype == TypeOf(s.status[h])
            then Invokes(s, t, h, None)
            else t == s
  {
    hide Askable, FirstIp, Placed, Owned, Accounted, SwitchedOnce, GivesNone;
    GivesFor(r, h, []);
    ReadsAddress(r, h, []);
  }

  /** A response for a name that nobody waits for changes nothing but the status of a stuck one. */
  lemma OthersAreIgnored<C(!new)>(s: State<C>, r: Response, first: Family)
    requires Sound(s, first) && (r.hostname == None || r.hostname.value == [] || r.hostname.value !in s.waiters)
    ensures var t := After(s, Receives(r), first); t == s.(stuck := t.stuck)
  {
    hide Askable, FirstIp, Asks, Placed, Owned, Accounted, SwitchedOnce;
  }

  /** A query is sent in the other family if and only if the status of the name is that of the first family and the
      response has no address for it. */
  lemma SentAgainWhen<C(!new)>(s: State<C>, r: Response, h: Bytes, first: Family)
    requires r.hostname == Some(h)
    ensures Switches(s, r, first) <==> h in s.status && s.status[h] == first && GivesNone(r, h)
  {
    hide FirstIp;
    if Switches(s, r, first) {
      NoneGiven(r, h);
    } else if GivesNone(r, h) {
      ReadsAddress(r, h, []);
    }
  }

  lemma NoneGiven(r: Response, h: Bytes)
    requires r.hostname == Some(h) && h != [] && FirstIp(r.answers) == []
    ensures GivesNone(r, h)
  {
    hide FirstIp;
    forall i: nat | FirstAddress(r.answers, i)
      ensures r.answers[i].addr == []
    {
      FirstIpIs(r.answers, i);
    }
  }

  /** What a response does to a name whose request could not be built: the same as to others, but that nobody is there
      to be invoked. */
  lemma StuckAfter<C(!new)>(s: State<C>, r: Response, h: Bytes, first: Family)
    requires Sound(s, first) && h in s.stuck && r.hostname == Some(h) && h != []
    ensures var t := After(s, Receives(r), first);
            && (t == if !GivesNone(r, h) then s.(stuck := s.stuck - {h})
                     else if s.stuck[h] == first then s.(stuck := s.stuck[h := if first == V4 then V6 else V4])
                     else if exists i :: 0 <= i < |r.questions| && r.questions[i].qtype == TypeOf(s.stuck[h])
                     then s.(stuck := s.stuck - {h})
                     else s)
  {
    hide FirstIp, Askable, Placed, Owned, Accounted, SwitchedOnce, GivesNone;
    if FirstIp(r.answers) == [] {
      NoneGiven(r, h);
    } else {
      ReadsAddress(r, h, []);
    }
  }

  // ----- from the call of resolve to the answer -----

  /** The response answers those who wait for the name: with an address, or with an error. */
  ghost predicate Answers<C(!new)>(s: State<C>, r: Response, h: Bytes, ip: Option<Bytes>, first: Family) {
    match ip
    case Some(a) => Gives(r, h, a)
    case None =>
      && GivesNone(r, h) && h in s.status && s.status[h] != first
      && exists i :: 0 <= i < |r.questions| && r.questions[i].qtype == TypeOf(s.status[h])
  }

  /** An event that lets a callback wait on. */
  ghost predicate Passes<C(!new)>(s: State<C>, e: Event<C>, h: Bytes, c: C, first: Family) {
    match e
    case Resolves(_, d, _) => d !in s.past.given
    case Receives(r) => forall ip {:trigger Answers(s, r, h, ip, first)} :: !Answers(s, r, h, ip, first)
    case Removes(d) => d != c
  }

  ghost predicate Waits<C(!new)>(s: State<C>, h: Bytes, c: C) {
    h in s.waiters && c in s.waiters[h]
  }

  /** Whoever waits is answered by the first response that answers the name, and waits on otherwise, unless taken
      back. */
  lemma WaiterStep<C(!new)>(s: State<C>, e: Event<C>, h: Bytes, c: C, first: Family)
    requires Sound(s, first) && Waits(s, h, c) && Passes(s, e, h, c, first)
    ensures Sound(After(s, e, first), first) && Waits(After(s, e, first), h, c)
  {
    AfterSound(s, e, first);
    match e {
      case Resolves(k, d, local) => ResolveKeeps(s, k, d, local, h, c, first);
      case Receives(r) => ResponseKeeps(s, r, h, c, first);
      case Removes(d) => RemovalKeeps(s, d, h, c, first);
    }
  }

  lemma ResolveKeeps<C(!new)>(s: State<C>, k: Bytes, d: C, local: Local, h: Bytes, c: C, first: Family)
    requires Waits(s, h, c)
    ensures Waits(After(s, Resolves(k, d, local), first), h, c)
  {
    hide Askable;
  }

  lemma ResponseKeeps<C(!new)>(s: State<C>, r: Response, h: Bytes, c: C, first: Family)
    requires Sound(s, first) && Waits(s, h, c) && Passes(s, Receives(r), h, c, first)
    ensures Waits(After(s, Receives(r), first), h, c)
  {
    hide Gives, GivesNone, After;
    SoundBooks(s, first);
    hide Sound;
    if r.hostname != Some(h) || h == [] {
      OtherNames(s, r, h, c, first);
    } else if GivesNone(r, h) {
      NoAddressSwitches(s, r, h, first);
      assert !Answers(s, r, h, None, first);
    } else {
      SomeAnswers(s, r, h, first);
    }
  }

  lemma SomeAnswers<C(!new)>(s: State<C>, r: Response, h: Bytes, first: Family)
    requires r.hostname == Some(h) && h != [] && !GivesNone(r, h)
    ensures exists ip {:trigger Answers(s, r, h, ip, first)} :: Answers(s, r, h, ip, first)
  {
    var i: nat :| FirstAddress(r.answers, i) && r.answers[i].addr != [];
    assert Answers(s, r, h, Some(r.answers[i].addr), first);
  }

  lemma OtherNames<C(!new)>(s: State<C>, r: Response, h: Bytes, c: C, first: Family)
    requires Waits(s, h, c) && (r.hostname != Some(h) || h == [])
    ensures Waits(After(s, Receives(r), first), h, c)
  {
    hide Askable, FirstIp, Asks, AddressIn;
  }

  lemma RemovalKeeps<C(!new)>(s: State<C>, d: C, h: Bytes, c: C, first: Family)
    requires Sound(s, first) && Waits(s, h, c) && d != c
    ensures Waits(After(s, Removes(d), first), h, c)
  {
    hide Askable;
    if d in s.owner && s.owner[d] == h {
      RemovedSound(s, h, d, first);
      WithoutDistinct(s.waiters[h], d);
      assert c in Elements(s.waiters[h]);
    }
  }

  /** Along a run, nothing answers the name and nobody takes the callback back. */
  ghost predicate AllPass<C(!new)>(s: State<C>, events: seq<Event<C>>, h: Bytes, c: C, first: Family)
    decreases |events|
  {
    events != [] ==> Passes(s, events[0], h, c, first) && AllPass(After(s, events[0], first), events[1..], h, c, first)
  }

  lemma {:induction false} WaitsOn<C(!new)>(s: State<C>, events: seq<Event<C>>, h: Bytes, c: C, first: Family)
    requires Sound(s, first) && Waits(s, h, c) && AllPass(s, events, h, c, first)
    ensures Sound(Run(s, events, first), first) && Waits(Run(s, events, first), h, c)
    decreases |events|
  {
    hide Sound, Waits, Passes, After;
    if events != [] {
      WaiterStep(s, events[0], h, c, first);
      WaitsOn(After(s, events[0], first), events[1..], h, c, first);
    }
  }

  lemma {:induction false} RunOneMore<C(!new)>(s: State<C>, events: seq<Event<C>>, e: Event<C>, first: Family)
    ensures Run(s, events + [e], first) == After(Run(s, events, first), e, first)
    decreases |events|
  {
    hide After;
    if events == [] {
      assert events + [e] == [e] && [e][1..] == [];
      assert Run(After(s, e, first), [], first) == After(s, e, first);
    } else {
      assert (events + [e])[1..] == events[1..] + [e];
      RunOneMore(After(s, events[0], first), events[1..], e, first);
    }
  }

  /** Who calls resolve for a name that has to be asked about waits for it, last in the row. */
  lemma ResolveWaits<C(!new)>(s: State<C>, h: Bytes, c: C, first: Family)
    requires Sound(s, first) && Askable(h) && c !in s.past.given
    ensures var t := After(s, Resolves(h, c, Ask), first);
            && Sound(t, first) && Waits(t, h, c)
            && t.waiters == s.waiters[h := if h in s.waiters then s.waiters[h] + [c] else [c]]
            && t.status == (if h in s.waiters then s.status else s.status[h := first])
            && t.past.called == s.past.called && t.past.told == s.past.told
            && (c in t.owner <==> h !in s.waiters)
  {
    AfterSound(s, Resolves(h, c, Ask), first);
    hide Askable;
    assert c !in s.owner;
  }

  /** A name that needs no query is answered at once. */
  lemma AnsweredAtOnce<C(!new)>(s: State<C>, h: Bytes, c: C, local: Local, first: Family)
    requires !local.Ask?
    ensures var t := After(s, Resolves(h, c, local), first);
            && t.past.called == s.past.called + [c] && c in t.past.told
            && t.past.told[c] == (match local case Known(ip) => Some(ip) case _ => None)
            && t.waiters == s.waiters && t.status == s.status
  {
  }

  /** From the call to the answer, over whole runs: a callback whose name is asked about is told the address in the
      first response that has one, however many other calls and responses come before, unless the name is answered with
      an error or the callback is taken back. */
  lemma {:induction false} ToldInTheEnd<C(!new)>(s: State<C>, h: Bytes, c: C, events: seq<Event<C>>, r: Response,
                                                 ip: Bytes, first: Family)
    requires Sound(s, first) && Askable(h) && c !in s.past.given && Gives(r, h, ip)
    requires AllPass(After(s, Resolves(h, c, Ask), first), events, h, c, first)
    ensures var t := Run(s, [Resolves(h, c, Ask)] + events + [Receives(r)], first);
            && c in t.past.told && t.past.told[c] == Some(ip) && c in t.past.called && !Waits(t, h, c)
  {
    hide Askable, Sound, After, Gives, AllPass;
    var s1 := After(s, Resolves(h, c, Ask), first);
    var all := [Resolves(h, c, Ask)] + events;
    ResolveWaits(s, h, c, first);
    WaitsOn(s1, events, h, c, first);
    assert all[0] == Resolves(h, c, Ask) && all[1..] == events;
    assert Run(s, all, first) == Run(s1, events, first);
    RunOneMore(s, all, Receives(r), first);
    AddressAnswers(Run(s, all, first), r, h, ip, first);
  }

  /** Whoever has opened a query can take it back, and then waits no more and is not invoked. */
  lemma TakenBack<C(!new)>(s: State<C>, h: Bytes, c: C, first: Family)
    requires Sound(s, first) && Waits(s, h, c) && c in s.owner
    ensures var t := After(s, Removes(c), first);
            && Sound(t, first) && !Waits(t, h, c) && c !in t.owner
            && t.past.called == s.past.called && t.past.told == s.past.told
            && (forall k {:trigger k in t.waiters} :: k != h ==> (k in t.waiters <==> k in s.waiters))
            && (forall d :: d in s.waiters[h] && d != c ==> Waits(t, h, d))
  {
    AfterSound(s, Removes(c), first);
    assert s.owner[c] == h;
    RemovedSound(s, h, c, first);
    assert After(s, Removes(c), first) == Removed(s, h, c);
    WithoutDistinct(s.waiters[h], c);
    RestWaits(s, h, c);
    hide Sound, After, Waits;
  }

  lemma RestWaits<C(!new)>(s: State<C>, h: Bytes, c: C)
    requires h in s.waiters && Elements(OD.Without(s.waiters[h], c)) == Elements(s.waiters[h]) - {c}
    ensures var t := Removed(s, h, c);
            && !Waits(t, h, c) && c !in t.owner
            && t.past.called == s.past.called && t.past.told == s.past.told
            && (forall k {:trigger k in t.waiters} :: k != h ==> (k in t.waiters <==> k in s.waiters))
            && (forall d :: d in s.waiters[h] && d != c ==> Waits(t, h, d))
  {
    var rest := OD.Without(s.waiters[h], c);
    assert forall d :: d in rest <==> d in Elements(rest);
  }

  // ----- the checks before a query -----

  ghost predicate HasSuffix(h: Bytes, t: Bytes) {
    exists a: Bytes :: h == a + t
  }

  lemma EndsWithIs(h: Bytes, t: Bytes)
    ensures EndsWith(h, t) <==> HasSuffix(h, t)
  {
    if EndsWith(h, t) {
      assert h == h[..|h| - |t|] + t;
    }
  }

  /** Exactly the names that no check answers are asked about. */
  lemma AskedWhen(k: Checks, cache: map<Bytes, Bytes>, h: Bytes)
    ensures Look(k, cache, h) == Ask
       <==> h != [] && !k.isIp(h) && h !in k.hosts && h !in cache && ValidHost(k.python2, h)
            && forall i :: 0 <= i < |k.black| ==> !HasSuffix(h, k.black[i])
  {
    hide ValidHost, EndsWith, HasSuffix;
    forall i | 0 <= i < |k.black|
      ensures EndsWith(h, k.black[i]) <==> HasSuffix(h, k.black[i])
    {
      EndsWithIs(h, k.black[i]);
    }
  }

  /** An address stands for itself; otherwise the hosts file comes before the cache. */
  lemma KnownWhen(k: Checks, cache: map<Bytes, Bytes>, h: Bytes, ip: Bytes)
    ensures Look(k, cache, h) == Known(ip)
       <==> h != [] && if k.isIp(h) then ip == h
                       else if h in k.hosts then ip == k.hosts[h]
                       else h in cache && ip == cache[h]
  {
    hide ValidHost, EndsWith;
  }
}
