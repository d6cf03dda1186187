/**
 * The first packet of an auth_sha1_v4 or auth_aes128 stream, from which the server learns who connects,
 * the first payload and, for auth_aes128, the key of all later checks.
 */
module AuthGreeting {
  import opened AuthFrames
  import opened ByteStrings
  import opened StreamBasics

  /** The server's verdict on the bytes so far: wait for more, not this protocol, an exception, or a
      greeting of the given size with its key and first payload. */
  datatype Judgement = Wait | NoMatch | Broken | Greeted(key: Bytes, first: Bytes, size: nat)

  /** Time, client id and connection id. */
  datatype Card = Card(utc: U32, clientId: U32, connectionId: U32)

  function CardBytes(c: Card): (b: Bytes)
    ensures |b| == 12
  {
    Le32(c.utc) + Le32(c.clientId) + Le32(c.connectionId)
  }

  /** The card in front of some bytes. */
  function ReadCard(data: Bytes): Card
    requires |data| >= 12
  {
    Card(UnLe32(data[..4]), UnLe32(data[4..8]), UnLe32(data[8..12]))
  }

  lemma CardReadBack(c: Card, more: Bytes)
    ensures ReadCard(CardBytes(c) + more) == c
  {
    var data := CardBytes(c) + more;
    assert data[..4] == Le32(c.utc) && data[4..8] == Le32(c.clientId) && data[8..12] == Le32(c.connectionId);
    Le32RoundTrip(c.utc);
    Le32RoundTrip(c.clientId);
    Le32RoundTrip(c.connectionId);
  }

  lemma CardTime(c: Card, more: Bytes)
    ensures UnLe32((CardBytes(c) + more)[..4]) == c.utc
  {
    assert (CardBytes(c) + more)[..4] == Le32(c.utc);
    Le32RoundTrip(c.utc);
  }

  /** Python's b[lo:hi]: negative bounds count from the end, and bounds outside are cut off. */
  function Slice(b: Bytes, lo: int, hi: int): Bytes {
    var i, j := Bound(lo, |b|), Bound(hi, |b|);
    if i <= j then b[i..j] else []
  }

  function Bound(x: int, n: nat): (r: nat)
    ensures r <= n
  {
    if x + n < 0 then 0 else if x < 0 then x + n else if x < n then x else n
  }

  /** The server waits for all of the greeting and then takes key and payload from it, whatever follows. */
  ghost predicate Accepts(judge: Bytes -> Judgement, hello: Bytes, key: Bytes, first: Bytes) {
    && (forall w {:trigger judge(w)} :: w < hello ==> judge(w) == Wait)
    && (forall more {:trigger hello + more} :: judge(hello + more) == Greeted(key, first, |hello|))
  }

  // ----- auth_sha1_v4 -----

  /** Checks and keys; iv is the stream's, which the server receives. */
  datatype Sha1 = Sha1(crc32: Bytes -> U32, mac: (Bytes, Bytes) -> Mac, salt: Bytes, key: Bytes, iv: Bytes)

  function Sha1Head(p: Sha1, size: Bytes): Bytes {
    Le32(p.crc32(size + p.salt + p.key))
  }

  function Sha1Core(p: Sha1, pad: Bytes, card: Card, first: Bytes): (b: Bytes)
    requires |pad| + |first| + 28 < 0x1_0000
    ensures |b| == |pad| + |first| + 18
  {
    var size := Be16(|pad| + |first| + 28);
    size + Sha1Head(p, size) + (pad + (CardBytes(card) + first))
  }

  function Sha1Hello(p: Sha1, pad: Bytes, card: Card, first: Bytes): (b: Bytes)
    requires |pad| + |first| + 28 < 0x1_0000
    ensures |b| == |pad| + |first| + 28
  {
    var core := Sha1Core(p, pad, card, first);
    core + p.mac(p.iv + p.key, core)[..10]
  }

  /** Where the data of a greeting starts, or None when the size field is cut short. */
  function Sha1Start(buf: Bytes): int
    requires |buf| > 6
  {
    if buf[6] < 255 then 6 + buf[6] else if |buf| < 9 then -1 else 6 + UnBe16(buf[7..9])
  }

  function ReadSha1(p: Sha1, now: U32, admitted: bool, buf: Bytes): Judgement {
    if |buf| <= 6 then Wait
    else if Sha1Head(p, buf[..2]) != buf[2..6] then NoMatch
    else
      var size: int := UnBe16(buf[..2]);
      if size > |buf| then Wait
      else if p.mac(p.iv + p.key, Slice(buf, 0, size - 10))[..10] != Slice(buf, size - 10, size) then NoMatch
      else if Sha1Start(buf) < 0 then Broken
      else ReadSha1Data(Slice(buf, Sha1Start(buf), size - 10), now, admitted, size)
  }

  function ReadSha1Data(data: Bytes, now: U32, admitted: bool, size: nat): Judgement {
    if |data| < 12 || !TimeAccepted(UnLe32(data[..4]), now) || !admitted then NoMatch
    else Greeted([], data[12..], size)
  }

  function Sha1Judge(p: Sha1, now: U32, admitted: bool): Bytes -> Judgement {
    (buf: Bytes) => ReadSha1(p, now, admitted, buf)
  }

  lemma Sha1Parts(p: Sha1, pad: Bytes, card: Card, first: Bytes, more: Bytes)
    requires |pad| + |first| + 28 < 0x1_0000
    ensures var size := |pad| + |first| + 28;
            var buf := Sha1Hello(p, pad, card, first) + more;
            && buf[..2] == Be16(size) && buf[2..6] == Sha1Head(p, Be16(size))
            && buf[..size - 10] == Sha1Core(p, pad, card, first)
            && buf[size - 10..size] == p.mac(p.iv + p.key, Sha1Core(p, pad, card, first))[..10]
            && buf[6..6 + |pad|] == pad && buf[6 + |pad|..size - 10] == CardBytes(card) + first
  {
  }

  lemma Sha1StartSkips(pad: Bytes, buf: Bytes)
    requires TellsSize(true, pad) && |buf| >= 6 + |pad| + 12 && buf[6..6 + |pad|] == pad
    ensures Sha1Start(buf) == 6 + |pad|
  {
    assert buf[6] == pad[0];
    if pad[0] == 255 {
      assert buf[7] == buf[6..6 + |pad|][1] && buf[8] == buf[6..6 + |pad|][2];
      assert pad[1..3] == [pad[1], pad[2]] && buf[7..9] == [buf[7], buf[8]];
    }
  }

  /** The server takes the first payload from exactly the client's greeting. */
  lemma Sha1Accepts(p: Sha1, pad: Bytes, card: Card, first: Bytes, now: U32)
    requires TellsSize(true, pad) && |pad| + |first| + 28 < 0x1_0000 && TimeAccepted(card.utc, now)
    ensures Accepts(Sha1Judge(p, now, true), Sha1Hello(p, pad, card, first), [], first)
  {
    var hello := Sha1Hello(p, pad, card, first);
    forall more
      ensures ReadSha1(p, now, true, hello + more) == Greeted([], first, |hello|)
    {
      Sha1Whole(p, pad, card, first, now, true, more);
    }
    forall w | w < hello
      ensures ReadSha1(p, now, true, w) == Wait
    {
      Sha1Waits(p, pad, card, first, now, w);
    }
  }

  /** The greeting is judged by its time and by whether the table of clients admits its ids. */
  lemma Sha1Whole(p: Sha1, pad: Bytes, card: Card, first: Bytes, now: U32, admitted: bool, more: Bytes)
    requires TellsSize(true, pad) && |pad| + |first| + 28 < 0x1_0000
    ensures ReadSha1(p, now, admitted, Sha1Hello(p, pad, card, first) + more)
         == if TimeAccepted(card.utc, now) && admitted then Greeted([], first, |pad| + |first| + 28) else NoMatch
  {
    hide Sha1Hello, Sha1Core, Sha1Head, TimeAccepted, CardBytes, Sha1Start;
    Sha1Parts(p, pad, card, first, more);
    Sha1StartSkips(pad, Sha1Hello(p, pad, card, first) + more);
    Sha1Skipped(p, pad, card, first, now, admitted, more);
  }

  /** The same for any bytes before the card that the server skips. */
  lemma Sha1Skipped(p: Sha1, pad: Bytes, card: Card, first: Bytes, now: U32, admitted: bool, more: Bytes)
    requires |pad| + |first| + 28 < 0x1_0000
    requires Sha1Start(Sha1Hello(p, pad, card, first) + more) == 6 + |pad|
    ensures ReadSha1(p, now, admitted, Sha1Hello(p, pad, card, first) + more)
         == if TimeAccepted(card.utc, now) && admitted then Greeted([], first, |pad| + |first| + 28) else NoMatch
  {
    hide Sha1Hello, Sha1Core, Sha1Head, TimeAccepted, CardBytes, Sha1Start;
    Sha1Data(p, pad, card, first, more);
    Sha1Parts(p, pad, card, first, more);
    CardTime(card, first);
    hide Slice;
    assert (CardBytes(card) + first)[12..] == first;
  }

  /** Where the card and the first payload are. */
  lemma Sha1Data(p: Sha1, pad: Bytes, card: Card, first: Bytes, more: Bytes)
    requires |pad| + |first| + 28 < 0x1_0000
    requires Sha1Start(Sha1Hello(p, pad, card, first) + more) == 6 + |pad|
    ensures var buf, size := Sha1Hello(p, pad, card, first) + more, |pad| + |first| + 28;
            && UnBe16(buf[..2]) == size
            && Slice(buf, Sha1Start(buf), size - 10) == CardBytes(card) + first
            && Slice(buf, 0, size - 10) == Sha1Core(p, pad, card, first)
            && Slice(buf, size - 10, size) == p.mac(p.iv + p.key, Sha1Core(p, pad, card, first))[..10]
  {
    hide Sha1Hello, Sha1Core, Sha1Head, CardBytes, Sha1Start;
    Sha1Parts(p, pad, card, first, more);
  }

  /** The card that the server reads from a greeting it takes. */
  function Sha1Card(p: Sha1, now: U32, buf: Bytes): Card
    requires ReadSha1(p, now, true, buf).Greeted?
  {
    ReadCard(Slice(buf, Sha1Start(buf), UnBe16(buf[..2]) - 10))
  }

  lemma Sha1CardIs(p: Sha1, pad: Bytes, card: Card, first: Bytes, now: U32, more: Bytes)
    requires TellsSize(true, pad) && |pad| + |first| + 28 < 0x1_0000
    requires ReadSha1(p, now, true, Sha1Hello(p, pad, card, first) + more).Greeted?
    ensures Sha1Card(p, now, Sha1Hello(p, pad, card, first) + more) == card
  {
    hide ReadSha1, Sha1Hello, Sha1Start, Slice, CardBytes, UnBe16, ReadCard;
    Sha1Parts(p, pad, card, first, more);
    Sha1StartSkips(pad, Sha1Hello(p, pad, card, first) + more);
    Sha1Data(p, pad, card, first, more);
    CardReadBack(card, first);
  }

  lemma Sha1Waits(p: Sha1, pad: Bytes, card: Card, first: Bytes, now: U32, w: Bytes)
    requires |pad| + |first| + 28 < 0x1_0000 && w < Sha1Hello(p, pad, card, first)
    ensures ReadSha1(p, now, true, w) == Wait
  {
    hide Sha1Hello, Sha1Core, Sha1Head, ReadSha1Data, Sha1Start;
    if |w| > 6 {
      Sha1Parts(p, pad, card, first, []);
      assert Sha1Hello(p, pad, card, first) + [] == Sha1Hello(p, pad, card, first);
      assert w[..2] == Sha1Hello(p, pad, card, first)[..2];
      assert w[2..6] == Sha1Hello(p, pad, card, first)[2..6];
    }
  }

  /** The number of bytes to skip, as their first byte or the two behind it tell. */
  function Told(b: Bytes): nat
    requires |b| >= 3
  {
    if b[0] < 255 then b[0] else 0x100 * b[1] as int + b[2] as int
  }

  /** The bytes begin with a greeting of this card and payload, which comes in time. */
  ghost predicate Sha1Greeting(p: Sha1, now: U32, buf: Bytes, pad: Bytes, card: Card, first: Bytes) {
    && |pad| + |first| + 28 < 0x1_0000 && Sha1Hello(p, pad, card, first) <= buf && Told(buf[6..]) == |pad|
    && TimeAccepted(card.utc, now)
  }

  /** And what it does with other bytes: it waits below seven and below the length announced; a wrong checksum of the
      length, a wrong tag, and no room for a card end the protocol; a size of the padding that is cut off raises. */
  lemma Sha1NotYet(p: Sha1, now: U32, admitted: bool, buf: Bytes)
    ensures var r := ReadSha1(p, now, admitted, buf);
            && (|buf| < 7 ==> r == Wait)
            && (|buf| >= 7 ==>
                  var n: int := UnBe16(buf[..2]);
                  if Le32(p.crc32(buf[..2] + p.salt + p.key)) != buf[2..6] then r == NoMatch
                  else if |buf| < n then r == Wait
                  else if 10 <= n && p.mac(p.iv + p.key, buf[..n - 10])[..10] != buf[n - 10..n] then r == NoMatch
                  else if 10 <= n && |buf| < 9 && buf[6] == 255 then r == Broken
                  else r.NoMatch? || r.Greeted? || (n < 10 && r.Broken?))
  {
    hide TimeAccepted;
    if |buf| >= 7 && 10 <= UnBe16(buf[..2]) <= |buf| {
      assert Slice(buf, 0, UnBe16(buf[..2]) - 10) == buf[..UnBe16(buf[..2]) - 10];
    }
  }

  /** A server takes exactly the greetings. */
  lemma Sha1TakesGreetings(p: Sha1, now: U32, admitted: bool, buf: Bytes, first: Bytes, size: nat)
    ensures ReadSha1(p, now, admitted, buf) == Greeted([], first, size)
       <==> admitted && exists pad, card :: size == |pad| + |first| + 28 && Sha1Greeting(p, now, buf, pad, card, first)
  {
    hide Sha1Hello, TimeAccepted, Sha1Greeting, ReadSha1;
    if ReadSha1(p, now, admitted, buf) == Greeted([], first, size) {
      var pad, card := Sha1Taken(p, now, admitted, buf, first, size);
    }
    forall pad, card | size == |pad| + |first| + 28 && Sha1Greeting(p, now, buf, pad, card, first)
      ensures ReadSha1(p, now, true, buf) == Greeted([], first, size)
    {
      Sha1IsTaken(p, now, buf, pad, card, first);
    }
  }

  lemma Sha1IsTaken(p: Sha1, now: U32, buf: Bytes, pad: Bytes, card: Card, first: Bytes)
    requires Sha1Greeting(p, now, buf, pad, card, first)
    ensures ReadSha1(p, now, true, buf) == Greeted([], first, |pad| + |first| + 28)
  {
    hide TimeAccepted, ReadSha1, Sha1Hello;
    var hello := Sha1Hello(p, pad, card, first);
    var more := buf[|hello|..];
    assert buf == hello + more;
    assert buf[6..][0] == buf[6] && buf[6..][1] == buf[7] && buf[6..][2] == buf[8];
    assert buf[7..9] == [buf[7], buf[8]];
    Sha1Skipped(p, pad, card, first, now, true, more);
  }

  lemma Sha1Taken(p: Sha1, now: U32, admitted: bool, buf: Bytes, first: Bytes, size: nat)
    returns (pad: Bytes, card: Card)
    requires ReadSha1(p, now, admitted, buf) == Greeted([], first, size)
    ensures admitted && size == |pad| + |first| + 28 && Sha1Greeting(p, now, buf, pad, card, first)
  {
    hide TimeAccepted;
    TagOfTen(p, buf, size);
    var start := Sha1Start(buf);
    pad := buf[6..start];
    var data := buf[start..size - 10];
    card := ReadCard(data);
    assert data[12..] == first;
    Sha1Rebuilt(p, buf, size, start);
    assert buf[6..][0] == buf[6] && buf[6..][1] == buf[7] && buf[6..][2] == buf[8];
    assert buf[7..9] == [buf[7], buf[8]];
  }

  lemma CardRebuilt(data: Bytes)
    requires |data| >= 12
    ensures CardBytes(ReadCard(data)) == data[..12]
  {
    UnLe32RoundTrip(data[..4]);
    UnLe32RoundTrip(data[4..8]);
    UnLe32RoundTrip(data[8..12]);
    assert data[..4] + data[4..8] + data[8..12] == data[..12];
  }

  lemma Be16Rebuilt(b: Bytes)
    requires |b| == 2
    ensures Be16(UnBe16(b)) == b
  {
  }

  /** The greeting, put together again from its parts. */
  lemma Sha1Rebuilt(p: Sha1, buf: Bytes, size: nat, start: nat)
    requires 6 <= start && start + 22 <= size <= |buf| && size == UnBe16(buf[..2]) && Sha1Head(p, buf[..2]) == buf[2..6]
    requires p.mac(p.iv + p.key, buf[..size - 10])[..10] == buf[size - 10..size]
    ensures var data := buf[start..size - 10];
            Sha1Hello(p, buf[6..start], ReadCard(data), data[12..]) == buf[..size]
  {
    hide Sha1Head, ReadCard, CardBytes, UnBe16, Be16;
    var data := buf[start..size - 10];
    var pad, card, first := buf[6..start], ReadCard(data), data[12..];
    CardRebuilt(data);
    Be16Rebuilt(buf[..2]);
    assert CardBytes(card) + first == data && pad + data == buf[6..size - 10];
    assert buf[..2] + buf[2..6] + buf[6..size - 10] == buf[..size - 10];
    assert Sha1Core(p, pad, card, first) == buf[..size - 10];
    assert buf[..size - 10] + buf[size - 10..size] == buf[..size];
  }

  /** A tag of ten bytes that fits has ten bytes before the end; and the card begins behind the padding. */
  lemma TagOfTen(p: Sha1, buf: Bytes, size: nat)
    requires |buf| > 6 && size <= |buf|
    requires p.mac(p.iv + p.key, Slice(buf, 0, size - 10))[..10] == Slice(buf, size - 10, size)
    ensures size >= 10 && Slice(buf, 0, size - 10) == buf[..size - 10]
    ensures Slice(buf, size - 10, size) == buf[size - 10..size]
  {
  }
  // ----- auth_aes128 -----

  type Block = b: Bytes | |b| == 16 witness seq(16, _ => 0)
  type Uid = b: Bytes | |b| == 4 witness [0, 0, 0, 0]

  /** Checks, cipher and keys; iv is the stream's, which the server receives, and hash the key derivation of users. */
  datatype Aes = Aes(mac: (Bytes, Bytes) -> Mac, hash: Bytes -> Bytes, base64: Bytes -> Bytes,
                     encrypt: (Bytes, Block) -> Block, decrypt: (Bytes, Block) -> Block,
                     salt: Bytes, key: Bytes, iv: Bytes)

  ghost predicate GoodCipher(p: Aes) {
    forall key, block {:trigger p.encrypt(key, block)} :: p.decrypt(key, p.encrypt(key, block)) == block
  }

  function Password(p: Aes, userKey: Bytes): Bytes {
    p.base64(userKey) + p.salt
  }

  function CardBlock(card: Card, size: U16, rnd: U16): (b: Block) {
    CardBytes(card) + Le16(size) + Le16(rnd)
  }

  /** What the client draws: one byte of head, its user id if it has none, and the bytes before the payload. */
  datatype Drawn = Drawn(head: Byte, uid: Uid, rnd: Bytes)

  predicate FitsSize(rnd: Bytes, first: Bytes) {
    |rnd| + |first| + 35 < 0x1_0000
  }

  /** The 20 bytes of user id and encrypted block. */
  function AesCore(p: Aes, userKey: Bytes, card: Card, d: Drawn, first: Bytes): (b: Bytes)
    requires FitsSize(d.rnd, first)
    ensures |b| == 20
  {
    d.uid + p.encrypt(Password(p, userKey), CardBlock(card, |d.rnd| + |first| + 35, |d.rnd|))
  }

  /** The greeting without its last check. */
  function AesBody(p: Aes, userKey: Bytes, card: Card, d: Drawn, first: Bytes): (b: Bytes)
    requires FitsSize(d.rnd, first)
    ensures |b| == |d.rnd| + |first| + 31
  {
    var macKey := p.iv + p.key;
    var core := AesCore(p, userKey, card, d, first);
    [d.head] + p.mac(macKey, [d.head])[..6] + core + p.mac(macKey, core)[..4] + (d.rnd + first)
  }

  function AesHello(p: Aes, userKey: Bytes, card: Card, d: Drawn, first: Bytes): (b: Bytes)
    requires FitsSize(d.rnd, first)
    ensures |b| == |d.rnd| + |first| + 35
  {
    var body := AesBody(p, userKey, card, d, first);
    body + p.mac(userKey, body)[..4]
  }

  /** The key the server uses for a user id. */
  function LookupKey(p: Aes, users: map<Uid, Bytes>, uid: Uid): Bytes {
    if uid in users then p.hash(users[uid]) else if users == map[] then p.key else p.iv
  }

  /** The key with which a greeting for a user id is good: that made of the user's, or the server's if it has no users.
      No client holds the third, which is the stream's IV, for an id that is not among the users. */
  predicate KeyIs(p: Aes, users: map<Uid, Bytes>, uid: Uid, key: Bytes) {
    if uid in users.Keys then key == p.hash(users[uid])
    else if |users| == 0 then key == p.key
    else key == p.iv
  }

  lemma KeyLookedUp(p: Aes, users: map<Uid, Bytes>, uid: Uid, key: Bytes)
    ensures KeyIs(p, users, uid, key) <==> LookupKey(p, users, uid) == key
  {
  }

  /** The check of the first bytes, done at two or three bytes and from seven on. */
  predicate HeadFails(p: Aes, buf: Bytes) {
    && (|buf| >= 7 || |buf| == 2 || |buf| == 3)
    && var n := if |buf| < 7 then |buf| else 7;
       p.mac(p.iv + p.key, buf[..1])[..n - 1] != buf[1..n]
  }

  /** extra is how much longer the server pretends to wait on a wrong second check. */
  function ReadAes(p: Aes, users: map<Uid, Bytes>, extra: nat, now: U32, admitted: bool, buf: Bytes): Judgement {
    if HeadFails(p, buf) then NoMatch
    else if |buf| < 31 then Wait
    else if p.mac(p.iv + p.key, buf[7..27])[..4] != buf[27..31] then
      if |buf| < 31 + extra then Wait else NoMatch
    else
      var userKey := LookupKey(p, users, buf[7..11]);
      ReadAesBlock(p, userKey, p.decrypt(Password(p, userKey), buf[11..27]), now, admitted, buf)
  }

  function ReadAesBlock(p: Aes, userKey: Bytes, block: Block, now: U32, admitted: bool, buf: Bytes): Judgement {
    var size: int := UnLe16(block[12..14]);
    if |buf| < size then Wait
    else if p.mac(userKey, Slice(buf, 0, size - 4))[..4] != Slice(buf, size - 4, size) then NoMatch
    else if !TimeAccepted(UnLe32(block[..4]), now) || !admitted then NoMatch
    else Greeted(userKey, Slice(buf, 31 + UnLe16(block[14..16]), size - 4), size)
  }

  function AesJudge(p: Aes, users: map<Uid, Bytes>, extra: nat, now: U32, admitted: bool): Bytes -> Judgement {
    (buf: Bytes) => ReadAes(p, users, extra, now, admitted, buf)
  }

  lemma AesParts(p: Aes, userKey: Bytes, card: Card, d: Drawn, first: Bytes, more: Bytes)
    requires FitsSize(d.rnd, first)
    ensures var macKey := p.iv + p.key;
            var core := AesCore(p, userKey, card, d, first);
            var buf := AesHello(p, userKey, card, d, first) + more;
            && buf[..1] == [d.head] && buf[1..7] == p.mac(macKey, [d.head])[..6]
            && buf[7..27] == core && buf[27..31] == p.mac(macKey, core)[..4]
  {
  }

  lemma AesTail(p: Aes, userKey: Bytes, card: Card, d: Drawn, first: Bytes, more: Bytes)
    requires FitsSize(d.rnd, first)
    ensures var size := |d.rnd| + |first| + 35;
            var body := AesBody(p, userKey, card, d, first);
            var buf := AesHello(p, userKey, card, d, first) + more;
            && buf[..size - 4] == body && buf[size - 4..size] == p.mac(userKey, body)[..4]
            && buf[31 + |d.rnd|..size - 4] == first
  {
  }

  lemma CoreParts(p: Aes, userKey: Bytes, card: Card, d: Drawn, first: Bytes, buf: Bytes)
    requires FitsSize(d.rnd, first) && |buf| >= 27 && buf[7..27] == AesCore(p, userKey, card, d, first)
    ensures buf[7..11] == d.uid
    ensures buf[11..27] == p.encrypt(Password(p, userKey), CardBlock(card, |d.rnd| + |first| + 35, |d.rnd|))
  {
    var core := AesCore(p, userKey, card, d, first);
    assert buf[7..11] == core[..4] && buf[11..27] == core[4..];
  }

  lemma BlockParts(card: Card, size: U16, rnd: U16)
    ensures var b := CardBlock(card, size, rnd);
            UnLe32(b[..4]) == card.utc && UnLe16(b[12..14]) == size && UnLe16(b[14..16]) == rnd
  {
    var b := CardBlock(card, size, rnd);
    CardTime(card, Le16(size) + Le16(rnd));
    assert b[..4] == Le32(card.utc);
    assert b[12..14] == Le16(size) && b[14..16] == Le16(rnd);
  }

  /** A server whose key for the user is the client's takes the key and the first payload from exactly the client's
      greeting. */
  lemma AesAccepts(p: Aes, users: map<Uid, Bytes>, extra: nat, userKey: Bytes, card: Card, d: Drawn, first: Bytes,
                   now: U32)
    requires GoodCipher(p) && FitsSize(d.rnd, first) && TimeAccepted(card.utc, now)
    requires KeyIs(p, users, d.uid, userKey)
    ensures Accepts(AesJudge(p, users, extra, now, true), AesHello(p, userKey, card, d, first), userKey, first)
  {
    var hello := AesHello(p, userKey, card, d, first);
    forall more
      ensures ReadAes(p, users, extra, now, true, hello + more) == Greeted(userKey, first, |hello|)
    {
      AesWhole(p, users, extra, userKey, card, d, first, now, true, more);
    }
    forall w | w < hello
      ensures ReadAes(p, users, extra, now, true, w) == Wait
    {
      AesWaits(p, users, extra, userKey, card, d, first, now, w);
    }
  }

  lemma BlockJudged(p: Aes, userKey: Bytes, card: Card, d: Drawn, first: Bytes, now: U32, admitted: bool, more: Bytes)
    requires FitsSize(d.rnd, first)
    ensures var size := |d.rnd| + |first| + 35;
            ReadAesBlock(p, userKey, CardBlock(card, size, |d.rnd|), now, admitted,
                         AesHello(p, userKey, card, d, first) + more)
              == if TimeAccepted(card.utc, now) && admitted then Greeted(userKey, first, size) else NoMatch
  {
    hide AesHello, AesBody, TimeAccepted, CardBlock;
    BlockParts(card, |d.rnd| + |first| + 35, |d.rnd|);
    AesTail(p, userKey, card, d, first, more);
  }

  /** The greeting is judged by its time and by whether the table of clients admits its ids. */
  lemma AesWhole(p: Aes, users: map<Uid, Bytes>, extra: nat, userKey: Bytes, card: Card, d: Drawn, first: Bytes,
                 now: U32, admitted: bool, more: Bytes)
    requires GoodCipher(p) && FitsSize(d.rnd, first) && KeyIs(p, users, d.uid, userKey)
    ensures ReadAes(p, users, extra, now, admitted, AesHello(p, userKey, card, d, first) + more)
         == if TimeAccepted(card.utc, now) && admitted then Greeted(userKey, first, |d.rnd| + |first| + 35) else NoMatch
  {
    KeyLookedUp(p, users, d.uid, userKey);
    hide AesHello, AesCore, AesBody, TimeAccepted, CardBlock, LookupKey, ReadAesBlock;
    var buf := AesHello(p, userKey, card, d, first) + more;
    AesParts(p, userKey, card, d, first, more);
    CoreParts(p, userKey, card, d, first, buf);
    BlockJudged(p, userKey, card, d, first, now, admitted, more);
  }

  /** The user id and the card that the server reads from a greeting it takes. */
  function AesUid(buf: Bytes): Uid
    requires |buf| >= 31
  {
    buf[7..11]
  }

  function AesCard(p: Aes, users: map<Uid, Bytes>, buf: Bytes): Card
    requires |buf| >= 31
  {
    ReadCard(p.decrypt(Password(p, LookupKey(p, users, AesUid(buf))), buf[11..27]))
  }

  lemma AesNamed(p: Aes, users: map<Uid, Bytes>, userKey: Bytes, card: Card, d: Drawn, first: Bytes, more: Bytes)
    requires GoodCipher(p) && FitsSize(d.rnd, first) && KeyIs(p, users, d.uid, userKey)
    ensures var buf := AesHello(p, userKey, card, d, first) + more;
            AesUid(buf) == d.uid && AesCard(p, users, buf) == card
  {
    KeyLookedUp(p, users, d.uid, userKey);
    hide AesHello, AesCore, AesBody, LookupKey, CardBytes, ReadCard, Le16;
    var buf := AesHello(p, userKey, card, d, first) + more;
    AesParts(p, userKey, card, d, first, more);
    CoreParts(p, userKey, card, d, first, buf);
    var size, rnd := |d.rnd| + |first| + 35, |d.rnd|;
    CardReadBack(card, Le16(size) + Le16(rnd));
    assert CardBlock(card, size, rnd) == CardBytes(card) + (Le16(size) + Le16(rnd));
  }

  lemma AesWaits(p: Aes, users: map<Uid, Bytes>, extra: nat, userKey: Bytes, card: Card, d: Drawn, first: Bytes,
                 now: U32, w: Bytes)
    requires GoodCipher(p) && FitsSize(d.rnd, first)
    requires KeyIs(p, users, d.uid, userKey)
    requires w < AesHello(p, userKey, card, d, first)
    ensures ReadAes(p, users, extra, now, true, w) == Wait
  {
    KeyLookedUp(p, users, d.uid, userKey);
    hide AesHello, AesCore, AesBody, TimeAccepted, LookupKey, CardBlock;
    var hello := AesHello(p, userKey, card, d, first);
    AesParts(p, userKey, card, d, first, []);
    assert hello + [] == hello;
    assert !HeadFails(p, w) by {
      PartialHead(p, hello, w);
    }
    if |w| >= 31 {
      assert w[7..27] == hello[7..27] && w[27..31] == hello[27..31];
      CoreParts(p, userKey, card, d, first, w);
      BlockParts(card, |d.rnd| + |first| + 35, |d.rnd|);
    }
  }

  lemma PartialHead(p: Aes, hello: Bytes, w: Bytes)
    requires |hello| >= 7 && w <= hello && p.mac(p.iv + p.key, hello[..1])[..6] == hello[1..7]
    ensures !HeadFails(p, w)
  {
    if |w| >= 2 {
      var n := if |w| < 7 then |w| else 7;
      assert w[..1] == hello[..1];
      SliceOfSlice(hello, 1, 7, 0, n - 1);
      assert w[1..n] == hello[1..n];
    }
  }

  /** The bytes begin with a greeting that is signed with this key, carries this payload and comes in time: its block
      says how long it is and how many bytes to skip. */
  predicate AesGreeting(p: Aes, userKey: Bytes, now: U32, buf: Bytes, first: Bytes, size: nat) {
    && 31 <= |buf| && 4 <= size <= |buf|
    && var block := p.decrypt(p.base64(userKey) + p.salt, buf[11..27]);
       && size == UnLe16(block[12..14]) && TimeAccepted(UnLe32(block[..4]), now)
       && p.mac(userKey, buf[..size - 4])[..4] == buf[size - 4..size]
       && first == if 31 + UnLe16(block[14..16]) <= size - 4 then buf[31 + UnLe16(block[14..16])..size - 4] else []
  }

  /** A server takes exactly the greetings whose first two tags fit under its own key, and the last under the key of the
      user whose id is sent; without users its own key takes the place of that, and for an id that is not among its
      users the IV. */
  lemma AesTakesGreetings(p: Aes, users: map<Uid, Bytes>, extra: nat, now: U32, admitted: bool, buf: Bytes,
                          userKey: Bytes, first: Bytes, size: nat)
    requires |buf| >= 31
    ensures ReadAes(p, users, extra, now, admitted, buf) == Greeted(userKey, first, size)
       <==> && p.mac(p.iv + p.key, buf[..1])[..6] == buf[1..7] && p.mac(p.iv + p.key, buf[7..27])[..4] == buf[27..31]
            && KeyIs(p, users, buf[7..11], userKey) && AesGreeting(p, userKey, now, buf, first, size) && admitted
  {
    hide TimeAccepted, UnLe16, UnLe32, LookupKey, KeyIs, ReadAesBlock, AesGreeting;
    KeyLookedUp(p, users, buf[7..11], userKey);
    BlockTaken(p, userKey, now, admitted, buf, first, size);
    var k := LookupKey(p, users, buf[7..11]);
    BlockKey(p, k, p.decrypt(Password(p, k), buf[11..27]), now, admitted, buf);
  }

  lemma BlockKey(p: Aes, userKey: Bytes, block: Block, now: U32, admitted: bool, buf: Bytes)
    ensures var r := ReadAesBlock(p, userKey, block, now, admitted, buf); r.Greeted? ==> r.key == userKey
  {
  }

  lemma BlockTaken(p: Aes, userKey: Bytes, now: U32, admitted: bool, buf: Bytes, first: Bytes, size: nat)
    requires |buf| >= 31
    ensures var block := p.decrypt(Password(p, userKey), buf[11..27]);
            && (ReadAesBlock(p, userKey, block, now, admitted, buf) == Greeted(userKey, first, size)
                <==> AesGreeting(p, userKey, now, buf, first, size) && admitted)
  {
    hide TimeAccepted, UnLe16, UnLe32;
    var block := p.decrypt(Password(p, userKey), buf[11..27]);
    var n: int, rnd: int := UnLe16(block[12..14]), UnLe16(block[14..16]);
    if n < 4 {
      assert |Slice(buf, n - 4, n)| < 4;
    } else if n <= |buf| {
      assert Slice(buf, 0, n - 4) == buf[..n - 4] && Slice(buf, n - 4, n) == buf[n - 4..n];
      assert Slice(buf, 31 + rnd, n - 4) == if 31 + rnd <= n - 4 then buf[31 + rnd..n - 4] else [];
    }
  }

  /** And before the last check: the first tag decides from seven bytes on, and at two and three; a wrong second one
      makes the server pretend to wait a while. */
  lemma AesNotYet(p: Aes, users: map<Uid, Bytes>, extra: nat, now: U32, admitted: bool, buf: Bytes)
    ensures var r := ReadAes(p, users, extra, now, admitted, buf);
            && (|buf| >= 7 && p.mac(p.iv + p.key, buf[..1])[..6] != buf[1..7] ==> r == NoMatch)
            && (|buf| == 2 && p.mac(p.iv + p.key, buf[..1])[..1] != buf[1..] ==> r == NoMatch)
            && (|buf| == 3 && p.mac(p.iv + p.key, buf[..1])[..2] != buf[1..] ==> r == NoMatch)
            && (|buf| < 2 || 3 < |buf| < 7 ==> r == Wait)
            && (7 <= |buf| < 31 && p.mac(p.iv + p.key, buf[..1])[..6] == buf[1..7] ==> r == Wait)
            && (|buf| >= 31 && p.mac(p.iv + p.key, buf[..1])[..6] == buf[1..7]
                && p.mac(p.iv + p.key, buf[7..27])[..4] != buf[27..31] ==>
                  r == if |buf| < 31 + extra then Wait else NoMatch)
  {
    hide LookupKey, ReadAesBlock;
  }
}
