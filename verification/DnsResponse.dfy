/**
 * Messages as RFC 1035 lays them out (section 4): a header with four counts, questions, and resource records in three
 * sections; and that parse_response reads them back.
 */
module DnsResponse {
  import opened ByteStrings
  import opened DnsCodec
  import opened DnsMessage
  import opened Options

  /** A question: the labels of its name, type and class. */
  datatype Asking = Asking(owner: seq<Bytes>, qtype: U16, qclass: U16)

  /** A resource record: the labels of its name, type, class, the four bytes of the time to live, the length announced
      and the data; and what labels the data spells, where it is a name. */
  datatype Resource = Resource(owner: seq<Bytes>, rtype: U16, rclass: U16, ttl: Bytes, length: U16, rdata: Bytes,
                               target: seq<Bytes>)

  predicate HoldsName(rtype: U16) {
    rtype == 2 || rtype == 5
  }

  /** The question lies at this place of the message. */
  predicate AskingAt(data: Bytes, at: nat, q: Asking) {
    && Spells(data, at, at, q.owner)
    && var body := at + SpelledSize(data, at);
       body + 4 <= |data| && data[body..body + 4] == Be16(q.qtype) + Be16(q.qclass)
  }

  function AskingEnd(data: Bytes, at: nat): nat {
    at + SpelledSize(data, at) + 4
  }

  /** The record lies at this place. Its data may be cut off by the end of the message. */
  predicate ResourceAt(data: Bytes, at: nat, r: Resource) {
    && Spells(data, at, at, r.owner) && |r.ttl| == 4
    && var body := at + SpelledSize(data, at);
       && body + 10 + |r.rdata| <= |data|
       && data[body..body + 10 + |r.rdata|] == Be16(r.rtype) + Be16(r.rclass) + r.ttl + Be16(r.length) + r.rdata
       && (|r.rdata| == r.length || (|r.rdata| < r.length && body + 10 + |r.rdata| == |data|))
       && (HoldsName(r.rtype) ==> Spells(data, body + 10, body + 10, r.target))
  }

  function ResourceEnd(data: Bytes, at: nat, r: Resource): nat {
    at + SpelledSize(data, at) + 10 + r.length
  }

  /** An address has its four or sixteen bytes. */
  predicate Readable(r: Resource) {
    (r.rtype == 1 ==> |r.rdata| == 4) && (r.rtype == 28 ==> |r.rdata| == 16)
  }

  predicate AskingsAt(data: Bytes, at: nat, qs: seq<Asking>)
    decreases |qs|
  {
    qs != [] ==> AskingAt(data, at, qs[0]) && AskingsAt(data, AskingEnd(data, at), qs[1..])
  }

  function AskingsEnd(data: Bytes, at: nat, qs: seq<Asking>): nat
    decreases |qs|
  {
    if qs == [] then at else AskingsEnd(data, AskingEnd(data, at), qs[1..])
  }

  predicate ResourcesAt(data: Bytes, at: nat, rs: seq<Resource>)
    decreases |rs|
  {
    rs != [] ==> ResourceAt(data, at, rs[0]) && ResourcesAt(data, ResourceEnd(data, at, rs[0]), rs[1..])
  }

  function ResourcesEnd(data: Bytes, at: nat, rs: seq<Resource>): nat
    decreases |rs|
  {
    if rs == [] then at else ResourcesEnd(data, ResourceEnd(data, at, rs[0]), rs[1..])
  }

  /** A whole message: the counts of its header, and the four sections one behind the other. */
  predicate Message(data: Bytes, qs: seq<Asking>, an: seq<Resource>, ns: seq<Resource>, ar: seq<Resource>) {
    && |qs| < 0x1_0000 && |an| < 0x1_0000 && |ns| < 0x1_0000 && |ar| < 0x1_0000
    && |data| >= HEADER_SIZE && data[4..12] == Be16(|qs|) + Be16(|an|) + Be16(|ns|) + Be16(|ar|)
    && AskingsAt(data, HEADER_SIZE, qs)
    && var answers := AskingsEnd(data, HEADER_SIZE, qs);
       && ResourcesAt(data, answers, an)
       && var authority := ResourcesEnd(data, answers, an);
          && ResourcesAt(data, authority, ns)
          && ResourcesAt(data, ResourcesEnd(data, authority, ns), ar)
  }

  /** What a record is read as: the text of an address, that of a name, or the data itself. */
  function Shown(pr: Printer, data: Bytes, at: nat, r: Resource): Bytes {
    if r.rtype == 1 then pr.v4(r.rdata)
    else if r.rtype == 28 then pr.v6(r.rdata)
    else if HoldsName(r.rtype) then
      var body := at + SpelledSize(data, at) + 10;
      NameText(r.target, EndsAtRoot(data, body, body))
    else r.rdata
  }

  /** The answers, in order. */
  function Readings(pr: Printer, data: Bytes, at: nat, rs: seq<Resource>): seq<Answer>
    decreases |rs|
  {
    if rs == [] then []
    else [Answer(Shown(pr, data, at, rs[0]), rs[0].rtype, rs[0].rclass)]
         + Readings(pr, data, ResourceEnd(data, at, rs[0]), rs[1..])
  }

  function AskedFor(qs: seq<Asking>): (r: seq<Question>)
    ensures |r| == |qs|
  {
    seq(|qs|, i requires 0 <= i < |qs| => Question(qs[i].qtype, qs[i].qclass))
  }

  lemma {:induction false} NameRead(data: Bytes, at: nat, labels: seq<Bytes>, depth: nat)
    requires Spells(data, at, at, labels) && depth >= |data|
    ensures at < |data|
    ensures ParseName(data, at, depth)
         == Some(Parsed(SpelledSize(data, at), NameText(labels, EndsAtRoot(data, at, at))))
  {
    ParseSpelled(data, at, at, [], labels, depth);
    assert [] + labels == labels;
  }

  lemma {:induction false} AskingRead(pr: Printer, data: Bytes, at: nat, q: Asking, depth: nat)
    requires AskingAt(data, at, q) && depth >= |data|
    ensures ParseRecord(pr, data, at, true, depth)
         == Some((SpelledSize(data, at) + 4,
                  Record(NameText(q.owner, EndsAtRoot(data, at, at)), None, q.qtype, q.qclass)))
  {
    hide Spells, SpelledSize, EndsAtRoot, ParseName, NameText;
    NameRead(data, at, q.owner, depth);
    var body := at + SpelledSize(data, at);
    assert data[body..body + 2] == data[body..body + 4][..2] == Be16(q.qtype);
    assert data[body + 2..body + 4] == data[body..body + 4][2..4] == Be16(q.qclass);
  }

  /** The fields of the head of a record. */
  lemma HeadFields(data: Bytes, body: nat, r: Resource)
    requires |r.ttl| == 4 && body + 10 + |r.rdata| <= |data|
    requires data[body..body + 10 + |r.rdata|] == Be16(r.rtype) + Be16(r.rclass) + r.ttl + Be16(r.length) + r.rdata
    ensures data[body..body + 2] == Be16(r.rtype) && data[body + 2..body + 4] == Be16(r.rclass)
    ensures data[body + 8..body + 10] == Be16(r.length) && data[body + 10..body + 10 + |r.rdata|] == r.rdata
  {
    var n := 10 + |r.rdata|;
    var head, tail := Be16(r.rtype) + Be16(r.rclass) + r.ttl, Be16(r.length) + r.rdata;
    var all := data[body..body + n];
    assert |head| == 8 && all == head + tail;
    hide Be16;
    SliceOfSlice(data, body, body + n, 0, 2);
    SliceOfSlice(data, body, body + n, 2, 4);
    SliceOfSlice(data, body, body + n, 8, 10);
    SliceOfSlice(data, body, body + n, 10, n);
    assert all[0..2] == Be16(r.rtype) && all[2..4] == Be16(r.rclass);
    assert all[8..10] == Be16(r.length) && all[10..n] == r.rdata;
  }

  /** What the data of a record is read as. */
  lemma {:induction false} DataRead(pr: Printer, data: Bytes, at: nat, r: Resource, depth: nat)
    requires ResourceAt(data, at, r) && depth >= |data|
    ensures ParseIp(pr, r.rtype, data, r.length, at + SpelledSize(data, at) + 10, depth)
         == if Readable(r) then Some(Shown(pr, data, at, r)) else None
  {
    hide Spells, SpelledSize, EndsAtRoot, ParseName, NameText;
    var body := at + SpelledSize(data, at);
    HeadFields(data, body, r);
    hide Be16;
    if |r.rdata| < r.length {
      assert data[body + 10..] == r.rdata;
    }
    if HoldsName(r.rtype) {
      NameRead(data, body + 10, r.target, depth);
    }
  }

  lemma {:induction false} ResourceRead(pr: Printer, data: Bytes, at: nat, r: Resource, depth: nat)
    requires ResourceAt(data, at, r) && depth >= |data|
    ensures ParseRecord(pr, data, at, false, depth)
         == if Readable(r) then
              Some((SpelledSize(data, at) + 10 + r.length,
                    Record(NameText(r.owner, EndsAtRoot(data, at, at)), Some(Shown(pr, data, at, r)), r.rtype,
                           r.rclass)))
            else None
  {
    hide Spells, SpelledSize, EndsAtRoot, ParseName, NameText, ParseIp, Shown, Be16, Readable, ParseResource;
    NameRead(data, at, r.owner, depth);
    BodyRead(pr, data, at, r, NameText(r.owner, EndsAtRoot(data, at, at)), depth);
  }

  lemma {:induction false} BodyRead(pr: Printer, data: Bytes, at: nat, r: Resource, name: Bytes, depth: nat)
    requires ResourceAt(data, at, r) && depth >= |data|
    ensures ParseResource(pr, data, at, Parsed(SpelledSize(data, at), name), depth)
         == if Readable(r) then
              Some((SpelledSize(data, at) + 10 + r.length,
                    Record(name, Some(Shown(pr, data, at, r)), r.rtype, r.rclass)))
            else None
  {
    hide Spells, SpelledSize, ParseIp, Shown, UnBe16, Readable;
    var body := at + SpelledSize(data, at);
    DataRead(pr, data, at, r, depth);
    HeadFields(data, body, r);
    hide Be16;
    UnBe16OfBe16(r.rtype);
    UnBe16OfBe16(r.rclass);
    UnBe16OfBe16(r.length);
  }

  lemma UnBe16OfBe16(x: U16)
    ensures UnBe16(Be16(x)) == x
  {
  }

  // ----- sections -----

  lemma {:induction false} AskingsRead(pr: Printer, data: Bytes, at: nat, qs: seq<Asking>, depth: nat)
    requires AskingsAt(data, at, qs) && depth >= |data|
    ensures var r := ParseRecords(pr, data, at, |qs|, true, depth);
            && r.Some? && r.value.0 == AskingsEnd(data, at, qs) && Questions(r.value.1) == AskedFor(qs)
            && |r.value.1| == |qs|
            && (qs != [] ==> r.value.1[0].name == NameText(qs[0].owner, EndsAtRoot(data, at, at)))
    decreases |qs|
  {
    hide AskingAt, ParseRecord, SpelledSize, NameText, EndsAtRoot;
    if qs != [] {
      AskingRead(pr, data, at, qs[0], depth);
      AskingsRead(pr, data, AskingEnd(data, at), qs[1..], depth);
      var rest := ParseRecords(pr, data, AskingEnd(data, at), |qs| - 1, true, depth);
      var one := ParseRecord(pr, data, at, true, depth).value.1;
      assert ([one] + rest.value.1)[1..] == rest.value.1;
      assert AskedFor(qs) == [Question(qs[0].qtype, qs[0].qclass)] + AskedFor(qs[1..]);
    }
  }

  lemma {:induction false} ResourcesRead(pr: Printer, data: Bytes, at: nat, rs: seq<Resource>, depth: nat)
    requires ResourcesAt(data, at, rs) && depth >= |data|
    ensures var r := ParseRecords(pr, data, at, |rs|, false, depth);
            if forall i :: 0 <= i < |rs| ==> Readable(rs[i]) then
              r.Some? && r.value.0 == ResourcesEnd(data, at, rs) && Answers(r.value.1) == Readings(pr, data, at, rs)
            else r == None
    decreases |rs|
  {
    hide ResourceAt, ParseRecord, SpelledSize, NameText, EndsAtRoot, Shown, Readable;
    if rs != [] {
      var next := ResourceEnd(data, at, rs[0]);
      ResourceRead(pr, data, at, rs[0], depth);
      ResourcesRead(pr, data, next, rs[1..], depth);
      assert forall i :: 0 < i < |rs| ==> rs[i] == rs[1..][i - 1];
      assert forall i :: 0 <= i < |rs| - 1 ==> rs[1..][i] == rs[i + 1];
      if Readable(rs[0]) && forall i :: 0 <= i < |rs| - 1 ==> Readable(rs[1..][i]) {
        var rest := ParseRecords(pr, data, next, |rs| - 1, false, depth);
        var one := ParseRecord(pr, data, at, false, depth).value.1;
        assert ([one] + rest.value.1)[1..] == rest.value.1;
      }
    }
  }

  lemma CountsAre(data: Bytes, a: U16, b: U16, c: U16, d: U16)
    requires |data| >= HEADER_SIZE && data[4..12] == Be16(a) + Be16(b) + Be16(c) + Be16(d)
    ensures Count(data, 0) == a && Count(data, 1) == b && Count(data, 2) == c && Count(data, 3) == d
  {
    var all := data[4..12];
    SliceOfSlice(data, 4, 12, 0, 2);
    SliceOfSlice(data, 4, 12, 2, 4);
    SliceOfSlice(data, 4, 12, 4, 6);
    SliceOfSlice(data, 4, 12, 6, 8);
    assert all[0..2] == Be16(a) && all[2..4] == Be16(b) && all[4..6] == Be16(c) && all[6..8] == Be16(d);
    UnBe16OfBe16(a);
    UnBe16OfBe16(b);
    UnBe16OfBe16(c);
    UnBe16OfBe16(d);
  }

  predicate AllReadable(rs: seq<Resource>) {
    forall i :: 0 <= i < |rs| ==> Readable(rs[i])
  }

  /** parse_response reads a message back: the name of the first question, the questions, and the answers in order,
      whatever the authority and additional records are; unless one of the records is an address of a wrong size. */
  lemma {:induction false} ResponseRead(pr: Printer, data: Bytes, qs: seq<Asking>, an: seq<Resource>,
                                        ns: seq<Resource>, ar: seq<Resource>, depth: nat)
    requires Message(data, qs, an, ns, ar) && depth >= |data|
    ensures ParseResponse(pr, data, depth)
         == if AllReadable(an) && AllReadable(ns) && AllReadable(ar) then
              Some(Response(if qs == [] then None
                            else Some(NameText(qs[0].owner, EndsAtRoot(data, HEADER_SIZE, HEADER_SIZE))),
                            AskedFor(qs), Readings(pr, data, AskingsEnd(data, HEADER_SIZE, qs), an)))
            else None
  {
    hide AskingsAt, ResourcesAt, ParseRecords, NameText, EndsAtRoot, Readings, AskingsEnd, ResourcesEnd, Questions;
    hide Answers, AskedFor, Count, Be16, Readable;
    var e0 := AskingsEnd(data, HEADER_SIZE, qs);
    var e1 := ResourcesEnd(data, e0, an);
    CountsAre(data, |qs|, |an|, |ns|, |ar|);
    AskingsRead(pr, data, HEADER_SIZE, qs, depth);
    ResourcesRead(pr, data, e0, an, depth);
    ResourcesRead(pr, data, e1, ns, depth);
    ResourcesRead(pr, data, ResourcesEnd(data, e1, ns), ar, depth);
  }

  // ----- an answer as name servers send it -----

  /** The name in the question, the record's owner a pointer to it, and an IPv4 address. */
  function AddressAnswer(id: Bytes, flags: Bytes, labels: seq<Bytes>, ttl: Bytes, ip: Bytes): Bytes
    requires Encodable(labels)
  {
    (id + flags + Be16(1) + Be16(1) + Be16(0) + Be16(0)) + EncodeLabels(labels)
    + ((Be16(1) + Be16(1)) + ([192, 12] + (Be16(1) + Be16(1) + ttl + Be16(4) + ip)))
  }

  /** Where its parts are. */
  lemma {:induction false} AnswerParts(id: Bytes, flags: Bytes, labels: seq<Bytes>, ttl: Bytes, ip: Bytes)
    requires Encodable(labels) && |id| == 2 && |flags| == 2 && |ttl| == 4 && |ip| == 4
    ensures var data, n := AddressAnswer(id, flags, labels, ttl, ip), |EncodeLabels(labels)|;
            && |data| == HEADER_SIZE + n + 20
            && data[4..12] == Be16(1) + Be16(1) + Be16(0) + Be16(0)
            && data[12..12 + n] == EncodeLabels(labels)
            && data[12 + n..12 + n + 4] == Be16(1) + Be16(1)
            && data[12 + n + 4] == 192 && data[12 + n + 5] == 12
            && data[12 + n + 6..12 + n + 20] == Be16(1) + Be16(1) + ttl + Be16(4) + ip
  {
    hide EncodeLabels;
    var data, name := AddressAnswer(id, flags, labels, ttl, ip), EncodeLabels(labels);
    var head := id + flags + Be16(1) + Be16(1) + Be16(0) + Be16(0);
    var ask, record := Be16(1) + Be16(1), Be16(1) + Be16(1) + ttl + Be16(4) + ip;
    assert |head| == 12 && |ask| == 4 && |record| == 14;
    assert head[4..12] == Be16(1) + Be16(1) + Be16(0) + Be16(0);
    hide Be16, AddressAnswer;
    assert data == head + name + (ask + ([192, 12] + record));
    PartsOf(data, head, name, ask, record);
  }

  lemma {:induction false} PartsOf(data: Bytes, head: Bytes, name: Bytes, ask: Bytes, record: Bytes)
    requires |head| == 12 && |ask| == 4 && |record| == 14 && data == head + name + (ask + ([192, 12] + record))
    ensures var at := 12 + |name|;
            && |data| == at + 20 && data[4..12] == head[4..12] && data[12..at] == name
            && data[at..at + 4] == ask && data[at + 4] == 192 && data[at + 5] == 12 && data[at + 6..at + 20] == record
  {
    var rest := ask + ([192, 12] + record);
    ThreeParts(head, name, rest);
    SliceOfSlice(data, 0, 12, 4, 12);
    var at := 12 + |name|;
    SliceOfSlice(data, at, |data|, 0, 4);
    SliceOfSlice(data, at, |data|, 6, 20);
    assert rest[..4] == ask && rest[6..20] == record && rest[4] == 192 && rest[5] == 12;
    assert data[at..][4] == data[at + 4] && data[at..][5] == data[at + 5];
  }

  lemma ThreeParts(a: Bytes, b: Bytes, c: Bytes)
    ensures var s := a + b + c;
            s[0..|a|] == a && s[|a|..|a| + |b|] == b && s[|a| + |b|..|s|] == c && s[|a| + |b|..] == c
  {
  }

  /** Such an answer is read as the name, the question and the text of the address. */
  lemma {:induction false} AddressAnswerRead(pr: Printer, id: Bytes, flags: Bytes, labels: seq<Bytes>, ttl: Bytes,
                                             ip: Bytes, depth: nat)
    requires Encodable(labels) && |id| == 2 && |flags| == 2 && |ttl| == 4 && |ip| == 4
    requires labels != [] && forall i :: 0 <= i < |labels| ==> labels[i] != []
    requires depth >= |AddressAnswer(id, flags, labels, ttl, ip)|
    ensures ParseResponse(pr, AddressAnswer(id, flags, labels, ttl, ip), depth)
         == Some(Response(Some(JoinDots(labels)), [Question(1, 1)], [Answer(pr.v4(ip), 1, 1)]))
  {
    var data, n := AddressAnswer(id, flags, labels, ttl, ip), |EncodeLabels(labels)|;
    var q, r := Asking(labels, 1, 1), Resource(labels, 1, 1, ttl, 4, ip, []);
    AnswerParts(id, flags, labels, ttl, ip);
    hide AddressAnswer, EncodeLabels, Be16, ParseResponse, JoinDots, Message, Readings, Spells, SpelledSize, EndsAtRoot;
    NamesOf(data, labels, n);
    AnswerIsMessage(data, labels, ttl, ip, n);
    OneAnswerRead(pr, data, labels, q, r, 12 + n + 4, depth);
  }

  lemma {:induction false} OneAnswerRead(pr: Printer, data: Bytes, labels: seq<Bytes>, q: Asking, r: Resource, at: nat,
                                         depth: nat)
    requires q == Asking(labels, 1, 1) && r.rtype == 1 && r.rclass == 1 && |r.rdata| == 4 && depth >= |data|
    requires Message(data, [q], [r], [], []) && AskingsEnd(data, HEADER_SIZE, [q]) == at
    requires labels != [] && !EndsAtRoot(data, HEADER_SIZE, HEADER_SIZE)
    ensures ParseResponse(pr, data, depth)
         == Some(Response(Some(JoinDots(labels)), [Question(1, 1)], [Answer(pr.v4(r.rdata), 1, 1)]))
  {
    hide ParseResponse, JoinDots, Message, Readings, EndsAtRoot, AskingsEnd;
    ReadingsOfOne(pr, data, at, r);
    assert AllReadable([r]) && AllReadable([]) && AskedFor([q]) == [Question(1, 1)];
    hide AllReadable, AskedFor;
    ResponseRead(pr, data, [q], [r], [], [], depth);
    PlainText(labels);
  }

  lemma {:induction false} ReadingsOfOne(pr: Printer, data: Bytes, at: nat, r: Resource)
    ensures Readings(pr, data, at, [r]) == [Answer(Shown(pr, data, at, r), r.rtype, r.rclass)]
  {
    hide Shown, ResourceEnd;
    assert [r][1..] == [];
    assert Readings(pr, data, ResourceEnd(data, at, r), []) == [];
  }

  lemma {:induction false} AnswerIsMessage(data: Bytes, labels: seq<Bytes>, ttl: Bytes, ip: Bytes, n: nat)
    requires |ttl| == 4 && |ip| == 4 && |data| == HEADER_SIZE + n + 20
    requires data[4..12] == Be16(1) + Be16(1) + Be16(0) + Be16(0)
    requires data[12 + n..12 + n + 4] == Be16(1) + Be16(1)
    requires data[12 + n + 6..12 + n + 20] == Be16(1) + Be16(1) + ttl + Be16(4) + ip
    requires Spells(data, 12, 12, labels) && SpelledSize(data, 12) == n
    requires Spells(data, 12 + n + 4, 12 + n + 4, labels) && SpelledSize(data, 12 + n + 4) == 2
    ensures Message(data, [Asking(labels, 1, 1)], [Resource(labels, 1, 1, ttl, 4, ip, [])], [], [])
    ensures AskingsEnd(data, HEADER_SIZE, [Asking(labels, 1, 1)]) == 12 + n + 4
  {
    hide Spells, SpelledSize, Be16;
    var q, r := Asking(labels, 1, 1), Resource(labels, 1, 1, ttl, 4, ip, []);
    var none: seq<Resource> := [];
    assert AskingAt(data, 12, q) && AskingEnd(data, 12) == 12 + n + 4;
    assert ResourceAt(data, 12 + n + 4, r) && ResourceEnd(data, 12 + n + 4, r) == |data|;
    hide AskingAt, ResourceAt;
    assert [q][1..] == [] && [r][1..] == none;
    assert AskingsAt(data, 16 + n, []) && ResourcesAt(data, |data|, none);
    assert AskingsAt(data, 12, [q]) && AskingsEnd(data, 12, [q]) == 16 + n;
    assert ResourcesAt(data, 16 + n, [r]) && ResourcesEnd(data, 16 + n, [r]) == |data|;
    hide AskingsAt, ResourcesAt, AskingsEnd;
    assert ResourcesEnd(data, |data|, none) == |data|;
  }

  /** The name in the question, and the pointer to it. */
  lemma {:induction false} NamesOf(data: Bytes, labels: seq<Bytes>, n: nat)
    requires Encodable(labels) && labels != [] && forall i :: 0 <= i < |labels| ==> labels[i] != []
    requires n == |EncodeLabels(labels)| && 12 + n + 6 <= |data| && data[12..12 + n] == EncodeLabels(labels)
    requires data[12 + n + 4] == 192 && data[12 + n + 5] == 12
    ensures Spells(data, 12, 12, labels) && SpelledSize(data, 12) == n && !EndsAtRoot(data, 12, 12)
    ensures var at := 12 + n + 4;
            Spells(data, at, at, labels) && SpelledSize(data, at) == 2 && !EndsAtRoot(data, at, at)
  {
    hide Spells, SpelledSize, EndsAtRoot, Pointer, EncodeLabels;
    AllFirst(labels);
    EncodedSpells(data, 12, 12, labels);
    EncodedPlain(data, 12, 12, labels);
    EncodedHead(data, 12, labels);
    assert data[12] == |labels[0]|;
    PointsTo(data, 12 + n + 4, 12, labels);
  }

  /** A pointer to a name that is not the root. */
  lemma {:induction false} PointsTo(data: Bytes, at: nat, target: nat, labels: seq<Bytes>)
    requires target < 256 && target < at && at + 2 <= |data| && data[at] == POINTER_BITS && data[at + 1] == target
    requires Spells(data, target, target, labels) && !EndsAtRoot(data, target, target) && data[target] != 0
    ensures Spells(data, at, at, labels) && SpelledSize(data, at) == 2 && !EndsAtRoot(data, at, at)
  {
    assert data[at..at + 2] == [POINTER_BITS, target];
    assert Pointer(data, at) == target;
  }
}
