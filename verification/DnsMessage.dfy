/** Requests and responses as whole messages, and when a response's parser recovers what a request asked. */
module DnsMessage {
  import opened ByteStrings
  import opened DnsCodec
  import opened Options

  const HEADER_SIZE := 12

  /** Flags and counts of a request: recursion desired, one question. */
  const REQUEST_HEADER: Bytes := [1, 0, 0, 1, 0, 0, 0, 0, 0, 0]

  /** build_request; None is the exception for a host name that has no address form. */
  function RequestBytes(id: Bytes, address: Bytes, qtype: U16): Option<Bytes> {
    var addr := AddressBytes(address);
    if addr == None then None
    else Some(id + REQUEST_HEADER + addr.value + Be16(qtype) + Be16(QCLASS_IN))
  }

  // ----- records -----

  datatype Record = Record(name: Bytes, addr: Option<Bytes>, rtype: U16, rclass: U16)

  /** The textual forms of IPv4 and IPv6 addresses. */
  datatype Printer = Printer(v4: Bytes -> Bytes, v6: Bytes -> Bytes)

  function Clip(data: Bytes, lo: nat, hi: nat): Bytes
    requires lo <= hi
  {
    if hi <= |data| then data[lo..hi] else if lo <= |data| then data[lo..] else []
  }

  /** parse_ip: addresses of the wrong length raise, and so do names that do not parse. */
  function ParseIp(pr: Printer, rtype: U16, data: Bytes, length: nat, offset: nat, depth: nat): Option<Bytes> {
    var raw := Clip(data, offset, offset + length);
    if rtype == QTYPE_A then (if |raw| == 4 then Some(pr.v4(raw)) else None)
    else if rtype == QTYPE_AAAA then (if |raw| == 16 then Some(pr.v6(raw)) else None)
    else if rtype == QTYPE_CNAME || rtype == QTYPE_NS then
      var r := ParseName(data, offset, depth);
      if r == None then None else Some(r.value.text)
    else Some(raw)
  }

  /** parse_record: its size and content. */
  function ParseRecord(pr: Printer, data: Bytes, offset: nat, question: bool, depth: nat): Option<(nat, Record)> {
    var n := ParseName(data, offset, depth);
    if n == None then None
    else if question then ParseQuestion(data, offset, n.value)
    else ParseResource(pr, data, offset, n.value, depth)
  }

  function ParseQuestion(data: Bytes, offset: nat, n: Parsed): Option<(nat, Record)> {
    var at := offset + n.size;
    if at + 4 > |data| then None
    else Some((n.size + 4, Record(n.text, None, UnBe16(data[at..at + 2]), UnBe16(data[at + 2..at + 4]))))
  }

  function ParseResource(pr: Printer, data: Bytes, offset: nat, n: Parsed, depth: nat): Option<(nat, Record)> {
    var at := offset + n.size;
    if at + 10 > |data| then None
    else
      var rtype, length := UnBe16(data[at..at + 2]), UnBe16(data[at + 8..at + 10]);
      var ip := ParseIp(pr, rtype, data, length, at + 10, depth);
      if ip == None then None
      else Some((n.size + 10 + length, Record(n.text, ip, rtype, UnBe16(data[at + 2..at + 4]))))
  }

  /** The next count records: where they end, and what they are. */
  function ParseRecords(pr: Printer, data: Bytes, offset: nat, count: nat, question: bool, depth: nat)
    : Option<(nat, seq<Record>)>
    decreases count
  {
    if count == 0 then Some((offset, []))
    else
      var r := ParseRecord(pr, data, offset, question, depth);
      if r == None then None
      else
        var rest := ParseRecords(pr, data, offset + r.value.0, count - 1, question, depth);
        if rest == None then None else Some((rest.value.0, [r.value.1] + rest.value.1))
  }

  // ----- responses -----

  datatype Question = Question(qtype: U16, qclass: U16)
  datatype Answer = Answer(addr: Bytes, atype: U16, aclass: U16)

  datatype Response = Response(hostname: Option<Bytes>, questions: seq<Question>, answers: seq<Answer>)

  function Questions(records: seq<Record>): seq<Question> {
    if records == [] then [] else [Question(records[0].rtype, records[0].rclass)] + Questions(records[1..])
  }

  function Answers(records: seq<Record>): seq<Answer> {
    if records == [] then []
    else
      (if records[0].addr.Some? then [Answer(records[0].addr.value, records[0].rtype, records[0].rclass)] else [])
      + Answers(records[1..])
  }

  function Count(data: Bytes, k: nat): U16
    requires |data| >= HEADER_SIZE && k < 4
  {
    UnBe16(data[4 + 2 * k..6 + 2 * k])
  }

  /** parse_response; None when the message is too short or anything raises. */
  function ParseResponse(pr: Printer, data: Bytes, depth: nat): Option<Response> {
    if |data| < HEADER_SIZE then None
    else
      var qds := ParseRecords(pr, data, HEADER_SIZE, Count(data, 0), true, depth);
      if qds == None then None
      else
        var ans := ParseRecords(pr, data, qds.value.0, Count(data, 1), false, depth);
        if ans == None then None
        else if !Skips(pr, data, ans.value.0, Count(data, 2), Count(data, 3), depth) then None
        else Some(Response(if qds.value.1 == [] then None
                           else Some(qds.value.1[0].name), Questions(qds.value.1), Answers(ans.value.1)))
  }

  /** The authority and additional records parse. */
  predicate Skips(pr: Printer, data: Bytes, offset: nat, ns: nat, ar: nat, depth: nat) {
    var nss := ParseRecords(pr, data, offset, ns, false, depth);
    nss.Some? && ParseRecords(pr, data, nss.value.0, ar, false, depth).Some?
  }

  /** A loop over count records. */
  method ReadRecords(pr: Printer, data: Bytes, offset: nat, count: nat, question: bool, depth: nat)
    returns (r: Option<(nat, seq<Record>)>)
    ensures r == ParseRecords(pr, data, offset, count, question, depth)
  {
    hide ParseRecord;
    var at: nat, i: nat, records: seq<Record> := offset, 0, [];
    ghost var whole := ParseRecords(pr, data, offset, count, question, depth);
    assert whole.Some? ==> records + whole.value.1 == whole.value.1;
    while i < count
      invariant i <= count
      invariant var rest := ParseRecords(pr, data, at, count - i, question, depth);
                whole == if rest == None then None else Some((rest.value.0, records + rest.value.1))
    {
      var one := ParseRecord(pr, data, at, question, depth);
      if one == None {
        return None;
      }
      ghost var rest := ParseRecords(pr, data, at + one.value.0, count - (i + 1), question, depth);
      assert rest.Some? ==> records + ([one.value.1] + rest.value.1) == (records + [one.value.1]) + rest.value.1;
      at, records, i := at + one.value.0, records + [one.value.1], i + 1;
    }
    assert records + [] == records;
    r := Some((at, records));
  }

  /** The four loops of parse_response. */
  method ReadResponse(pr: Printer, data: Bytes, depth: nat) returns (r: Option<Response>)
    ensures r == ParseResponse(pr, data, depth)
  {
    hide ParseRecords, Questions, Answers;
    if |data| < HEADER_SIZE {
      return None;
    }
    var qds := ReadRecords(pr, data, HEADER_SIZE, Count(data, 0), true, depth);
    if qds == None {
      return None;
    }
    var ans := ReadRecords(pr, data, qds.value.0, Count(data, 1), false, depth);
    if ans == None {
      return None;
    }
    var nss := ReadRecords(pr, data, ans.value.0, Count(data, 2), false, depth);
    if nss == None {
      return None;
    }
    var ars := ReadRecords(pr, data, nss.value.0, Count(data, 3), false, depth);
    if ars == None {
      return None;
    }
    var records := qds.value.1;
    r := Some(Response(if records == [] then None else Some(records[0].name), Questions(records),
                       Answers(ans.value.1)));
  }

  // ----- what a parser recovers of a request -----

  /** The labels before the first empty one: a zero length ends the name. */
  function FirstLabels(labels: seq<Bytes>): (r: seq<Bytes>)
    ensures |r| <= |labels|
  {
    if labels == [] || labels[0] == [] then [] else [labels[0]] + FirstLabels(labels[1..])
  }

  /** A host name that the parser gives back: labels of 1 to 63 bytes, separated by single dots. */
  predicate WellFormedHost(h: Bytes) {
    forall i :: 0 <= i < |SplitDots(h, [])| ==> 1 <= |SplitDots(h, [])[i]| <= MAX_LABEL
  }

  lemma {:induction false} FirstEncodable(labels: seq<Bytes>)
    requires Encodable(labels)
    ensures Encodable(FirstLabels(labels))
  {
    if labels != [] && labels[0] != [] {
      FirstEncodable(labels[1..]);
    }
  }

  /** Where labels are encoded, those before an empty one are spelled, without pointers. */
  lemma {:induction false} EncodedSpells(data: Bytes, start: nat, at: nat, labels: seq<Bytes>)
    requires Encodable(labels) && at + |EncodeLabels(labels)| <= |data|
    requires data[at..at + |EncodeLabels(labels)|] == EncodeLabels(labels)
    ensures Spells(data, start, at, FirstLabels(labels))
    ensures Encodable(FirstLabels(labels)) && SpelledSize(data, at) == |EncodeLabels(FirstLabels(labels))|
    decreases |labels|
  {
    hide Pointer;
    EncodedHead(data, at, labels);
    if labels != [] && labels[0] != [] {
      var l, rest := labels[0], labels[1..];
      EncodedSpells(data, start, at + 1 + |l|, rest);
      EncodeCons(l, FirstLabels(rest));
      assert FirstLabels(labels) == [l] + FirstLabels(rest);
      hide EncodeLabels, FirstLabels;
      SpellsCons(data, start, at, l, FirstLabels(rest));
      hide Spells, SpelledSize;
    } else {
      assert data[at] == 0 && FirstLabels(labels) == [];
      hide FirstLabels;
      assert EncodeLabels([]) == [0];
      hide EncodeLabels;
    }
  }

  /** A label in front of a name. */
  lemma {:induction false} SpellsCons(data: Bytes, start: nat, at: nat, l: Bytes, rest: seq<Bytes>)
    requires 0 < |l| <= MAX_LABEL && at + 1 + |l| < |data| && data[at] == |l| && data[at + 1..at + 1 + |l|] == l
    requires Spells(data, start, at + 1 + |l|, rest)
    ensures Spells(data, start, at, [l] + rest) && SpelledSize(data, at) == 1 + |l| + SpelledSize(data, at + 1 + |l|)
  {
    hide Pointer;
    assert ([l] + rest)[1..] == rest;
  }

  /** No pointers are used. */
  lemma {:induction false} EncodedPlain(data: Bytes, start: nat, at: nat, labels: seq<Bytes>)
    requires Encodable(labels) && at + |EncodeLabels(labels)| <= |data|
    requires data[at..at + |EncodeLabels(labels)|] == EncodeLabels(labels)
    ensures Hops(data, start, at) == 0 && !EndsAtRoot(data, start, at)
    decreases |labels|
  {
    hide Pointer;
    EncodedHead(data, at, labels);
    if labels != [] && labels[0] != [] {
      EncodedPlain(data, start, at + 1 + |labels[0]|, labels[1..]);
    }
  }

  lemma {:induction false} EncodeCons(l: Bytes, rest: seq<Bytes>)
    requires Encodable(rest) && |l| <= MAX_LABEL
    ensures Encodable([l] + rest) && |EncodeLabels([l] + rest)| == 1 + |l| + |EncodeLabels(rest)|
  {
    assert ([l] + rest)[1..] == rest;
  }

  lemma {:induction false} EncodedHead(data: Bytes, at: nat, labels: seq<Bytes>)
    requires Encodable(labels) && at + |EncodeLabels(labels)| <= |data|
    requires data[at..at + |EncodeLabels(labels)|] == EncodeLabels(labels)
    ensures |EncodeLabels(labels)| >= 1
    ensures labels == [] ==> data[at] == 0
    ensures labels != [] ==>
              var l, rest := labels[0], EncodeLabels(labels[1..]);
              var end := at + 1 + |l|;
              && data[at] == |l| && end + |rest| == at + |EncodeLabels(labels)| && |rest| >= 1
              && data[at + 1..end] == l && data[end..end + |rest|] == rest
  {
    var code := EncodeLabels(labels);
    EncodeEnds(labels);
    assert code[0] == data[at];
    if labels != [] {
      var l, rest := labels[0], EncodeLabels(labels[1..]);
      EncodeEnds(labels[1..]);
      assert code == [|l|] + l + rest;
      hide EncodeLabels;
      PartsAt(data, at, |l|, l, rest);
    }
  }

  lemma PartsAt(data: Bytes, at: nat, c: Byte, l: Bytes, rest: Bytes)
    requires at + 1 + |l| + |rest| <= |data| && data[at..at + 1 + |l| + |rest|] == [c] + l + rest
    ensures var end := at + 1 + |l|;
            data[at] == c && data[at + 1..end] == l && data[end..end + |rest|] == rest
  {
    var part := data[at..at + 1 + |l| + |rest|];
    assert part[0] == data[at];
    assert forall i :: 0 <= i < |l| ==> part[1 + i] == data[at + 1 + i] && part[1 + i] == l[i];
    assert forall i :: 0 <= i < |rest| ==> part[1 + |l| + i] == data[at + 1 + |l| + i] && part[1 + |l| + i] == rest[i];
  }

  /** The name that the parser finds in a request, and the bytes it takes for it. */
  lemma {:induction false} RequestName(id: Bytes, h: Bytes, q: U16, depth: nat)
    requires |id| == 2 && RequestBytes(id, h, q).Some?
    ensures var data := RequestBytes(id, h, q).value;
            var labels := SplitDots(StripDots(h), []);
            && Encodable(labels) && Encodable(FirstLabels(labels))
            && ParseName(data, HEADER_SIZE, depth)
               == Some(Parsed(|EncodeLabels(FirstLabels(labels))|, JoinDots(FirstLabels(labels))))
  {
    hide SplitDots, StripDots, JoinDots, Pointer, Spells;
    var data := RequestBytes(id, h, q).value;
    var labels := SplitDots(StripDots(h), []);
    var code := EncodeLabels(labels);
    assert data[HEADER_SIZE..HEADER_SIZE + |code|] == code;
    EncodedSpells(data, HEADER_SIZE, HEADER_SIZE, labels);
    EncodedPlain(data, HEADER_SIZE, HEADER_SIZE, labels);
    ParseSpelled(data, HEADER_SIZE, HEADER_SIZE, [], FirstLabels(labels), depth);
    assert [] + FirstLabels(labels) == FirstLabels(labels);
    PlainText(FirstLabels(labels));
  }

  lemma RequestCounts(id: Bytes, h: Bytes, q: U16)
    requires |id| == 2 && RequestBytes(id, h, q).Some?
    ensures var data := RequestBytes(id, h, q).value;
            && |data| >= HEADER_SIZE
            && Count(data, 0) == 1 && Count(data, 1) == 0 && Count(data, 2) == 0 && Count(data, 3) == 0
  {
    var data := RequestBytes(id, h, q).value;
    assert data[4..6] == [0, 1] && data[6..8] == [0, 0] && data[8..10] == [0, 0] && data[10..12] == [0, 0];
  }

  /** What the parser makes of a request: one question. */
  lemma {:induction false} RequestParsed(pr: Printer, id: Bytes, h: Bytes, q: U16, depth: nat)
    requires |id| == 2 && RequestBytes(id, h, q).Some?
    ensures var data := RequestBytes(id, h, q).value;
            var n := ParseName(data, HEADER_SIZE, depth);
            && n.Some?
            && var rec := ParseQuestion(data, HEADER_SIZE, n.value);
               ParseResponse(pr, data, depth)
               == if rec == None then None
                  else Some(Response(Some(n.value.text), [Question(rec.value.1.rtype, rec.value.1.rclass)], []))
  {
    hide RequestBytes, ParseName, SplitDots, StripDots, EncodeLabels, JoinDots, FirstLabels, Count;
    var data := RequestBytes(id, h, q).value;
    RequestName(id, h, q, depth);
    RequestCounts(id, h, q);
    var n := ParseName(data, HEADER_SIZE, depth);
    var rec := ParseQuestion(data, HEADER_SIZE, n.value);
    assert ParseRecord(pr, data, HEADER_SIZE, true, depth) == rec;
    if rec.Some? {
      OneRecord(pr, data, rec.value, depth);
    }
  }

  lemma {:induction false} OneRecord(pr: Printer, data: Bytes, rec: (nat, Record), depth: nat)
    requires ParseRecord(pr, data, HEADER_SIZE, true, depth) == Some(rec)
    ensures ParseRecords(pr, data, HEADER_SIZE, 1, true, depth) == Some((HEADER_SIZE + rec.0, [rec.1]))
    ensures Questions([rec.1]) == [Question(rec.1.rtype, rec.1.rclass)]
  {
    hide ParseRecord;
    assert ParseRecords(pr, data, HEADER_SIZE + rec.0, 0, true, depth) == Some((HEADER_SIZE + rec.0, []));
    assert [rec.1][1..] == [] && [rec.1] + [] == [rec.1];
    assert Questions([]) == [];
  }

  /** The parser gives back exactly the name and question asked. */
  predicate Recovers(pr: Printer, id: Bytes, h: Bytes, q: U16, depth: nat) {
    && RequestBytes(id, h, q).Some?
    && var r := ParseResponse(pr, RequestBytes(id, h, q).value, depth);
       r == Some(Response(Some(h), [Question(q, QCLASS_IN)], []))
  }

  /** The question of a well-formed request lies where the parser looks for it. */
  lemma QuestionAt(id: Bytes, h: Bytes, q: U16)
    requires |id| == 2 && RequestBytes(id, h, q).Some?
    ensures var data := RequestBytes(id, h, q).value;
            var labels := SplitDots(StripDots(h), []);
            && Encodable(labels)
            && ParseQuestion(data, HEADER_SIZE, Parsed(|EncodeLabels(labels)|, h))
               == Some((|EncodeLabels(labels)| + 4, Record(h, None, q, QCLASS_IN)))
  {
    hide SplitDots, StripDots, EncodeLabels;
    var data := RequestBytes(id, h, q).value;
    var at := HEADER_SIZE + |EncodeLabels(SplitDots(StripDots(h), []))|;
    assert data[at..at + 2] == Be16(q) && data[at + 2..at + 4] == Be16(QCLASS_IN);
  }

  lemma {:induction false} AllFirst(labels: seq<Bytes>)
    ensures FirstLabels(labels) == labels <==> forall i :: 0 <= i < |labels| ==> labels[i] != []
    ensures FirstLabels(labels) != labels && labels != [[]] ==> |JoinDots(FirstLabels(labels))| < |JoinDots(labels)|
    ensures |JoinDots(FirstLabels(labels))| <= |JoinDots(labels)|
  {
    if labels != [] && labels[0] != [] {
      AllFirst(labels[1..]);
      assert labels == [labels[0]] + labels[1..];
      var rest := FirstLabels(labels[1..]);
      assert ([labels[0]] + rest)[1..] == rest;
      assert forall i :: 0 < i < |labels| ==> labels[i] == labels[1..][i - 1];
    }
  }

  lemma {:induction false} SplitEnds(s: Bytes, cur: Bytes)
    requires forall i :: 0 <= i < |SplitDots(s, cur)| ==> SplitDots(s, cur)[i] != []
    ensures s != [] ==> s[|s| - 1] != DOT
    ensures s != [] && cur == [] ==> s[0] != DOT
    ensures s == [] ==> cur != []
    decreases |s|
  {
    var r := SplitDots(s, cur);
    if s == [] {
      assert r[0] == cur;
    } else if s[0] == DOT {
      var rest := SplitDots(s[1..], []);
      assert r[0] == cur && forall i :: 0 <= i < |rest| ==> rest[i] == r[i + 1];
      SplitEnds(s[1..], []);
    } else {
      SplitEnds(s[1..], cur + [s[0]]);
    }
  }

  lemma StripSame(s: Bytes)
    ensures |StripDots(s)| == |s| ==> StripDots(s) == s
    ensures s != [] && s[0] != DOT && s[|s| - 1] != DOT ==> StripDots(s) == s
  {
  }

  /** A well-formed host name is recovered. */
  lemma GoodHostRecovered(pr: Printer, id: Bytes, h: Bytes, q: U16, depth: nat)
    requires |id| == 2 && WellFormedHost(h)
    ensures Recovers(pr, id, h, q, depth)
  {
    hide ParseResponse, ParseQuestion, EncodeLabels, ParseName;
    var labels := SplitDots(h, []);
    SplitEnds(h, []);
    StripSame(h);
    JoinSplit(h, []);
    assert [] + h == h;
    AllFirst(labels);
    assert RequestBytes(id, h, q).Some?;
    RequestName(id, h, q, depth);
    QuestionAt(id, h, q);
    RequestParsed(pr, id, h, q, depth);
  }

  /** Without a name the parser looks for the question one byte too early. */
  lemma EmptyHostMisread(id: Bytes, q: U16)
    requires |id| == 2
    ensures RequestBytes(id, [], q).Some?
    ensures var r := ParseQuestion(RequestBytes(id, [], q).value, HEADER_SIZE, Parsed(1, []));
            r.Some? && r.value.1.rclass != QCLASS_IN
  {
    assert SplitDots([], []) == [[]];
    assert EncodeLabels([[]]) == [0, 0] by {
      var one: seq<Bytes> := [[]];
      assert one[1..] == [];
    }
    var data := RequestBytes(id, [], q).value;
    assert |data| == 18 && data[15] == q % 256 && data[16] == 0;
    assert data[15..17] == [data[15], data[16]];
  }

  /** A host name that is not well formed is not recovered: it cannot be written, or comes back shorter, or has no
      question. */
  lemma BadHostNotRecovered(pr: Printer, id: Bytes, h: Bytes, q: U16, depth: nat)
    requires |id| == 2 && Recovers(pr, id, h, q, depth)
    ensures WellFormedHost(h)
  {
    hide ParseResponse, ParseQuestion, EncodeLabels, ParseName, JoinDots;
    var s := StripDots(h);
    var labels := SplitDots(s, []);
    RequestName(id, h, q, depth);
    RequestParsed(pr, id, h, q, depth);
    JoinSplit(s, []);
    assert [] + s == s;
    AllFirst(labels);
    StripSame(h);
    assert JoinDots(FirstLabels(labels)) == h;
    assert s == h;
    if labels == [[]] {
      JoinOne();
      EmptyHostMisread(id, q);
      EmptyFirst();
      assert false;
    }
  }

  lemma JoinOne()
    ensures JoinDots([[]]) == []
  {
  }

  lemma EmptyFirst()
    ensures FirstLabels([[]]) == [] && |EncodeLabels([])| == 1 && JoinDots([]) == []
  {
  }

  /** parse_response(build_request(h, q)) gives back h and q if and only if h is made of labels of 1 to 63 bytes
      separated by single dots. */
  lemma RequestRoundTrip(pr: Printer, id: Bytes, h: Bytes, q: U16, depth: nat)
    requires |id| == 2
    ensures Recovers(pr, id, h, q, depth) <==> WellFormedHost(h)
  {
    hide Recovers, WellFormedHost;
    if WellFormedHost(h) {
      GoodHostRecovered(pr, id, h, q, depth);
    }
    if Recovers(pr, id, h, q, depth) {
      BadHostNotRecovered(pr, id, h, q, depth);
    }
  }
}
