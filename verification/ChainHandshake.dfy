/**
 * The 36-byte greeting that opens an auth_chain stream: a checked random head, the masked
 * user id with one AES block (time, client id, connection id, overhead), and a tag.
 * Reading it gives the server the keys and digests from which both directions start.
 */
module ChainHandshake {
  import opened ByteStrings
  import opened ChainCodec
  import opened Xorshift

  const HELLO_SIZE := 36

  /** What the client puts into the encrypted block. */
  datatype Card = Card(utc: U32, clientId: U32, connectionId: U32, overhead: U16)

  function CardBlock(c: Card): (b: Digest) {
    Le32(c.utc) + Le32(c.clientId) + Le32(c.connectionId) + Le16(c.overhead) + Le16(0)
  }

  function ReadCard(b: Digest): Card {
    Card(UnLe32(b[..4]), UnLe32(b[4..8]), UnLe32(b[8..12]), UnLe16(b[12..14]))
  }

  lemma CardRoundTrip(c: Card)
    ensures ReadCard(CardBlock(c)) == c
  {
    var b := CardBlock(c);
    assert b[..4] == Le32(c.utc);
    assert b[4..8] == Le32(c.clientId);
    assert b[8..12] == Le32(c.connectionId);
    assert b[12..14] == Le16(c.overhead);
    Le32RoundTrip(c.utc);
    Le32RoundTrip(c.clientId);
    Le32RoundTrip(c.connectionId);
  }

  /** What both directions start from. */
  datatype Greeting = Greeting(session: Session, clientHash: Digest, serverHash: Digest, card: Card)

  function BlockPassword(p: Primitives, userKey: Bytes, salt: Bytes): Bytes {
    p.base64(userKey) + salt
  }

  function NewSession(p: Primitives, userKey: Bytes, clientHash: Digest): Session {
    Session(userKey, p.base64(userKey) + p.base64(clientHash))
  }

  /** The user id as sent, masked with the digest of the head. */
  function MaskedUid(uid: U32, clientHash: Digest): Bytes {
    Le32(Xor32(uid, UnLe32(clientHash[8..12])))
  }

  /** The 20 bytes that the second tag covers. */
  function HelloCore(p: Primitives, userKey: Bytes, salt: Bytes, uid: U32, card: Card, clientHash: Digest): (b: Bytes)
    ensures |b| == 20
  {
    MaskedUid(uid, clientHash) + p.aesEncrypt(BlockPassword(p, userKey, salt), CardBlock(card))
  }

  /** The client's side of the greeting. macKey is the stream's IV followed by the server key. */
  function Greet(p: Primitives, macKey: Bytes, userKey: Bytes, salt: Bytes, uid: U32, card: Card, head: Bytes): Greeting
    requires |head| == 4
  {
    var clientHash := p.mac(macKey, head);
    Greeting(NewSession(p, userKey, clientHash), clientHash,
             p.mac(userKey, HelloCore(p, userKey, salt, uid, card, clientHash)), card)
  }

  function Hello(p: Primitives, macKey: Bytes, userKey: Bytes, salt: Bytes, uid: U32, card: Card, head: Bytes)
    : (b: Bytes)
    requires |head| == 4
    ensures |b| == HELLO_SIZE
  {
    var g := Greet(p, macKey, userKey, salt, uid, card, head);
    head + g.clientHash[..8] + HelloCore(p, userKey, salt, uid, card, g.clientHash) + g.serverHash[..4]
  }

  /** The key the server uses for a user id: its own if it has no users, and a useless one for an unknown user. */
  function LookupKey(users: map<U32, Bytes>, serverKey: Bytes, recvIv: Bytes, uid: U32): Bytes {
    if uid in users then users[uid] else if users == map[] then serverKey else recvIv
  }

  /** The key with which a greeting for a user id is good: that of the user, or the server's if it has no users. No
      client holds the third, which is the stream's IV, for an id that is not among the users. */
  predicate KeyIs(users: map<U32, Bytes>, serverKey: Bytes, recvIv: Bytes, uid: U32, key: Bytes) {
    if uid in users.Keys then key == users[uid]
    else if |users| == 0 then key == serverKey
    else key == recvIv
  }

  datatype HelloResult = Wait | NoMatch | Greeted(greeting: Greeting, uid: U32)

  /** The server's reading of the head's tag: done at 7 or 8 bytes and from 12 bytes on, over the tag bytes present. */
  predicate HeadFails(p: Primitives, macKey: Bytes, buf: Bytes) {
    && (|buf| >= 12 || |buf| == 7 || |buf| == 8)
    && var n := if |buf| < 12 then |buf| else 12;
       p.mac(macKey, buf[..4])[..n - 4] != buf[4..n]
  }

  /** The server's side. */
  function ReadHello(p: Primitives, users: map<U32, Bytes>, serverKey: Bytes, recvIv: Bytes, salt: Bytes, buf: Bytes)
    : (r: HelloResult)
    ensures r.Greeted? ==> |buf| >= HELLO_SIZE
  {
    if HeadFails(p, recvIv + serverKey, buf) then NoMatch
    else if |buf| < HELLO_SIZE then Wait
    else ReadWholeHello(p, users, serverKey, recvIv, salt, buf[..HELLO_SIZE])
  }

  function SentUid(hello: Bytes, clientHash: Digest): U32
    requires |hello| >= HELLO_SIZE
  {
    Xor32(UnLe32(hello[12..16]), UnLe32(clientHash[8..12]))
  }

  function ReadWholeHello(p: Primitives, users: map<U32, Bytes>, serverKey: Bytes, recvIv: Bytes, salt: Bytes,
                          hello: Bytes): HelloResult
    requires |hello| == HELLO_SIZE
  {
    var clientHash := p.mac(recvIv + serverKey, hello[..4]);
    var uid := SentUid(hello, clientHash);
    var userKey := LookupKey(users, serverKey, recvIv, uid);
    var serverHash := p.mac(userKey, hello[12..32]);
    if serverHash[..4] != hello[32..36] then NoMatch
    else
      var block := p.aesDecrypt(BlockPassword(p, userKey, salt), hello[16..32]);
      Greeted(Greeting(NewSession(p, userKey, clientHash), clientHash, serverHash, ReadCard(block)), uid)
  }

  /** AES decryption inverts encryption under the same password. */
  ghost predicate GoodCipher(p: Primitives) {
    forall key, block {:trigger p.aesEncrypt(key, block)} :: p.aesDecrypt(key, p.aesEncrypt(key, block)) == block
  }

  lemma HelloParts(p: Primitives, macKey: Bytes, userKey: Bytes, salt: Bytes, uid: U32, card: Card, head: Bytes)
    requires |head| == 4
    ensures var g := Greet(p, macKey, userKey, salt, uid, card, head);
            var hello := Hello(p, macKey, userKey, salt, uid, card, head);
            && hello[..4] == head && hello[4..12] == g.clientHash[..8]
            && hello[12..16] == MaskedUid(uid, g.clientHash)
            && hello[16..32] == p.aesEncrypt(BlockPassword(p, userKey, salt), CardBlock(card))
            && hello[12..32] == HelloCore(p, userKey, salt, uid, card, g.clientHash)
            && hello[32..36] == g.serverHash[..4]
  {
  }

  lemma UnmaskUid(uid: U32, clientHash: Digest)
    ensures Xor32(UnLe32(MaskedUid(uid, clientHash)), UnLe32(clientHash[8..12])) == uid
  {
    var mask := UnLe32(clientHash[8..12]);
    Le32RoundTrip(Xor32(uid, mask));
    Xor32Twice(uid, mask);
  }

  /** The server reads exactly the client's greeting, from the first 36 bytes, whenever the two sides hold the same
      server key and IV and the server's key for this user is the client's; and it waits for those bytes. */
  lemma HelloRoundTrip(p: Primitives, users: map<U32, Bytes>, serverKey: Bytes, iv: Bytes, userKey: Bytes,
                       salt: Bytes, uid: U32, card: Card, head: Bytes, more: Bytes)
    requires GoodCipher(p) && |head| == 4 && KeyIs(users, serverKey, iv, uid, userKey)
    ensures var hello := Hello(p, iv + serverKey, userKey, salt, uid, card, head);
            ReadHello(p, users, serverKey, iv, salt, hello + more)
              == Greeted(Greet(p, iv + serverKey, userKey, salt, uid, card, head), uid)
  {
    var g := Greet(p, iv + serverKey, userKey, salt, uid, card, head);
    var hello := Hello(p, iv + serverKey, userKey, salt, uid, card, head);
    var buf := hello + more;
    HelloParts(p, iv + serverKey, userKey, salt, uid, card, head);
    assert buf[..HELLO_SIZE] == hello;
    assert buf[..4] == head && buf[4..12] == hello[4..12];
    UnmaskUid(uid, g.clientHash);
    CardRoundTrip(card);
  }

  lemma HelloWaits(p: Primitives, users: map<U32, Bytes>, serverKey: Bytes, iv: Bytes, userKey: Bytes, salt: Bytes,
                   uid: U32, card: Card, head: Bytes, w: Bytes)
    requires |head| == 4
    requires w < Hello(p, iv + serverKey, userKey, salt, uid, card, head)
    ensures ReadHello(p, users, serverKey, iv, salt, w) == Wait
  {
    var g := Greet(p, iv + serverKey, userKey, salt, uid, card, head);
    var hello := Hello(p, iv + serverKey, userKey, salt, uid, card, head);
    HelloParts(p, iv + serverKey, userKey, salt, uid, card, head);
    if |w| >= 7 {
      var n := if |w| < 12 then |w| else 12;
      assert w[..4] == hello[..4];
      SliceOfSlice(hello, 4, 12, 0, n - 4);
      assert w[4..n] == hello[4..n] && g.clientHash[..8][..n - 4] == g.clientHash[..n - 4];
    }
  }

  /** A head that is refused once is refused whatever bytes follow, as soon as 12 bytes are there. */
  lemma RefusalStands(p: Primitives, users: map<U32, Bytes>, serverKey: Bytes, recvIv: Bytes, salt: Bytes, a: Bytes,
                      b: Bytes)
    requires ReadHello(p, users, serverKey, recvIv, salt, a) == NoMatch && |a + b| >= 12
    ensures ReadHello(p, users, serverKey, recvIv, salt, a + b) == NoMatch
  {
    var macKey := recvIv + serverKey;
    assert (a + b)[..4] == a[..4];
    if HeadFails(p, macKey, a) {
      var n := if |a| < 12 then |a| else 12;
      var tag := p.mac(macKey, a[..4]);
      assert (a + b)[4..n] == a[4..n];
      SliceOfSlice(a + b, 4, 12, 0, n - 4);
      assert tag[..8][..n - 4] == tag[..n - 4] != a[4..n];
    } else {
      assert (a + b)[4..12] == a[4..12];
      assert (a + b)[..HELLO_SIZE] == a[..HELLO_SIZE];
    }
  }

  // ----- exactly which greetings are read -----

  lemma {:induction false} NotYetWhole(p: Primitives, users: map<U32, Bytes>, serverKey: Bytes, recvIv: Bytes,
                                       salt: Bytes, buf: Bytes)
    requires |buf| < 36
    ensures ReadHello(p, users, serverKey, recvIv, salt, buf)
         == if |buf| >= 12 && p.mac(recvIv + serverKey, buf[..4])[..8] != buf[4..12] then NoMatch
            else if |buf| == 7 && p.mac(recvIv + serverKey, buf[..4])[..3] != buf[4..] then NoMatch
            else if |buf| == 8 && p.mac(recvIv + serverKey, buf[..4])[..4] != buf[4..] then NoMatch
            else Wait
  {
    if 4 <= |buf| < 12 {
      assert buf[4..|buf|] == buf[4..];
    }
  }

  /** The last four bytes of a greeting are the start of the digest of the twenty before, under this key. */
  predicate TagFits(p: Primitives, key: Bytes, buf: Bytes)
    requires |buf| >= 36
  {
    p.mac(key, buf[12..32])[..4] == buf[32..36]
  }

  /** Of 36 bytes and more, exactly those are read whose two tags fit: the head's under the server's key, and the second
      under the key of the user whose id is sent. A server without users takes its own key instead. For an id that is
      not among its users it takes the IV, with which no tag of a client's key fits but by chance. */
  lemma {:induction false} ReadsExactly(p: Primitives, users: map<U32, Bytes>, serverKey: Bytes, recvIv: Bytes,
                                        salt: Bytes, buf: Bytes)
    requires |buf| >= 36
    ensures var r := ReadHello(p, users, serverKey, recvIv, salt, buf);
            var hash := p.mac(recvIv + serverKey, buf[..4]);
            var uid := Xor32(UnLe32(buf[12..16]), UnLe32(hash[8..12]));
            && (r.Greeted? ==> hash[..8] == buf[4..12] && r.uid == uid && r.greeting.clientHash == hash)
            && (!r.Greeted? ==> r == NoMatch)
            && (hash[..8] == buf[4..12] && uid in users ==>
                  (r.Greeted? <==> TagFits(p, users[uid], buf))
                  && (r.Greeted? ==> r.greeting.session.userKey == users[uid]))
            && (hash[..8] == buf[4..12] && users == map[] ==>
                  (r.Greeted? <==> TagFits(p, serverKey, buf))
                  && (r.Greeted? ==> r.greeting.session.userKey == serverKey))
            && (hash[..8] == buf[4..12] && users != map[] && uid !in users ==>
                  (r.Greeted? <==> TagFits(p, recvIv, buf)))
  {
    hide ReadCard, Xor32, UnLe32;
    var hello := buf[..HELLO_SIZE];
    assert hello[..4] == buf[..4] && hello[12..16] == buf[12..16] && hello[12..32] == buf[12..32];
    assert hello[32..36] == buf[32..36];
  }
}
