/**
 * auth_sha1_v4 and auth_aes128 in bytes: where the fields of frames and greetings are and what is in them, and which
 * frames are opened and which are refused.
 */
module AuthFormat {
  import opened AuthFrames
  import opened AuthGreeting
  import opened ByteStrings
  import opened FrameLink
  import opened FrameLoop

  // ----- frames -----

  lemma Sha1FrameLayout(crc32: Bytes -> U32, adler32: Bytes -> U32, id: U32, m: Msg)
    requires Packable(Sha1V4(crc32, adler32), m)
    ensures var f := Frame(Sha1V4(crc32, adler32), id, m);
            var n := |f| - 4;
            && |f| == |m.rnd| + |m.plain| + 8
            && f[..2] == Be16(|f|) && f[2..4] == Le16(crc32(f[..2]) % 0x1_0000)
            && f[4..4 + |m.rnd|] == m.rnd && f[4 + |m.rnd|..n] == m.plain
            && f[n..] == Le32(adler32(f[..n]))
  {
    var size := Be16(|m.rnd| + |m.plain| + 8);
    var head := Le16(crc32(size) % 0x1_0000);
    hide Be16, Le16, Le32;
    FieldsInOrder(size, head, m.rnd, m.plain, Le32(adler32(size + head + m.rnd + m.plain)));
  }

  lemma AesFrameLayout(mac: (Bytes, Bytes) -> Mac, userKey: Bytes, id: U32, m: Msg)
    requires Packable(Aes128(mac, userKey), m)
    ensures var f := Frame(Aes128(mac, userKey), id, m);
            var n := |f| - 4;
            && |f| == |m.rnd| + |m.plain| + 8
            && f[..2] == Le16(|f|) && f[2..4] == mac(userKey + Le32(id), f[..2])[..2]
            && f[4..4 + |m.rnd|] == m.rnd && f[4 + |m.rnd|..n] == m.plain
            && f[n..] == mac(userKey + Le32(id), f[..n])[..4]
  {
    var size := Le16(|m.rnd| + |m.plain| + 8);
    var head := mac(userKey + Le32(id), size)[..2];
    hide Le16, Le32;
    FieldsInOrder(size, head, m.rnd, m.plain, mac(userKey + Le32(id), size + head + m.rnd + m.plain)[..4]);
  }

  lemma FieldsInOrder(a: Bytes, b: Bytes, c: Bytes, d: Bytes, t: Bytes)
    requires |a| == 2 && |b| == 2
    ensures var f := a + b + c + d + t;
            var n := |f| - |t|;
            && f[..2] == a && f[2..4] == b && f[4..4 + |c|] == c && f[4 + |c|..n] == d && f[n..] == t
            && f[..n] == a + b + c + d
  {
  }

  /** The two protocols: byte order, checks, and whether the frame number moves. */
  lemma FormatsAre(crc32: Bytes -> U32, adler32: Bytes -> U32, mac: (Bytes, Bytes) -> Mac, userKey: Bytes, id: U32,
                   b: Bytes)
    ensures var f, g := Sha1V4(crc32, adler32), Aes128(mac, userKey);
            && f.big && !g.big && NextId(f, id) == id && NextId(g, id) == (id + 1) % 0x1_0000_0000
            && f.headTag(id, b) == Le16(crc32(b) % 0x1_0000) && f.tailTag(id, b) == Le32(adler32(b))
            && g.headTag(id, b) == mac(userKey + Le32(id), b)[..2]
            && g.tailTag(id, b) == mac(userKey + Le32(id), b)[..4]
  {
  }

  /** What the receive loop makes of more than four bytes: a wrong check of the length, a length below 7 or of 8192 and
      more, an incomplete frame, a frame whose last check is wrong, and one that is opened: the payload behind the
      padding, whose length its first byte tells or the two bytes behind a 255. */
  lemma TurnIs(f: Format, d: Inbound, buf: Bytes)
    requires |buf| > 4
    ensures var n: int := if f.big then UnBe16(buf[..2]) else UnLe16(buf[..2]);
            var t := DecodeStep(f, d, buf);
            if f.headTag(d.id, buf[..2]) != buf[2..4] then t == Stuck(BadHead, d)
            else if n < 7 || 8192 <= n then t == Stuck(BadLength, d)
            else if |buf| < n then t == Stuck(More, d)
            else if f.tailTag(d.id, buf[..n - 4]) != buf[n - 4..n] then t == Stuck(BadTag, d)
            else
              var pos: int := 4 + if buf[4] < 255 then buf[4]
                                  else if f.big then UnBe16(buf[5..7]) else UnLe16(buf[5..7]);
              && t.Got? && t.size == n && t.plain == (if pos <= n - 4 then buf[pos..n - 4] else [])
              && t.state == Inbound(NextId(f, d.id), d.asked || pos == n - 4)
  {
    hide UnBe16, UnLe16;
    var n: int := if f.big then UnBe16(buf[..2]) else UnLe16(buf[..2]);
    if 7 <= n <= |buf| {
      assert buf[..n][..n - 4] == buf[..n - 4] && buf[..n][n - 4..] == buf[n - 4..n] && buf[..n][5..7] == buf[5..7];
      var pos := PayloadStart(f, buf[..n]);
      if pos <= n - 4 {
        assert buf[..n][pos..n - 4] == buf[pos..n - 4];
      }
    }
  }

  // ----- greetings -----

  /** Length, CRC-32 of length, salt and key, padding, time, client id, connection id, payload, and ten bytes of the
      digest of all before under IV and key. */
  lemma Sha1HelloLayout(p: Sha1, pad: Bytes, card: Card, first: Bytes)
    requires |pad| + |first| + 28 < 0x1_0000
    ensures var f := Sha1Hello(p, pad, card, first);
            var n, at := |f| - 10, 6 + |pad|;
            && |f| == |pad| + |first| + 28
            && f[..2] == Be16(|f|) && f[2..6] == Le32(p.crc32(f[..2] + p.salt + p.key)) && f[6..at] == pad
            && f[at..at + 12] == Le32(card.utc) + Le32(card.clientId) + Le32(card.connectionId)
            && f[at + 12..n] == first && f[n..] == p.mac(p.iv + p.key, f[..n])[..10]
  {
    Sha1Parts(p, pad, card, first, []);
    var f := Sha1Hello(p, pad, card, first);
    assert f + [] == f;
    var rest := CardBytes(card) + first;
    hide Be16, Le32, Sha1Hello, Sha1Core;
    var n, at := |f| - 10, 6 + |pad|;
    assert f[at..n] == rest;
    SliceOfSlice(f, at, n, 0, 12);
    SliceOfSlice(f, at, n, 12, n - at);
    assert rest[0..12] == CardBytes(card) && rest[12..n - at] == first;
    assert f[n..|f|] == f[n..];
  }

  /** One byte with six of its digest under IV and key, the user id and the block under the user key with four bytes of
      their digest under IV and key, the bytes to skip, the payload, and four bytes of the digest of all before under
      the user key. The block holds the card, the length of the greeting and how many bytes to skip. */
  lemma AesHelloLayout(p: Aes, userKey: Bytes, card: Card, d: Drawn, first: Bytes)
    requires FitsSize(d.rnd, first)
    ensures var f := AesHello(p, userKey, card, d, first);
            var n, at := |f| - 4, 31 + |d.rnd|;
            && |f| == |d.rnd| + |first| + 35
            && f[..1] == [d.head] && f[1..7] == p.mac(p.iv + p.key, f[..1])[..6] && f[7..11] == d.uid
            && f[11..27] == p.encrypt(p.base64(userKey) + p.salt,
                                      Le32(card.utc) + Le32(card.clientId) + Le32(card.connectionId)
                                      + Le16(|f|) + Le16(|d.rnd|))
            && f[27..31] == p.mac(p.iv + p.key, f[7..27])[..4]
            && f[31..at] == d.rnd && f[at..n] == first && f[n..] == p.mac(userKey, f[..n])[..4]
  {
    var f := AesHello(p, userKey, card, d, first);
    assert f + [] == f;
    AesParts(p, userKey, card, d, first, []);
    AesTail(p, userKey, card, d, first, []);
    CoreParts(p, userKey, card, d, first, f);
    SkippedPart(p, userKey, card, d, first);
    hide Le16, Le32, AesHello, AesBody, AesCore;
    assert f[|f| - 4..] == f[|f| - 4..|f|];
  }

  lemma SkippedPart(p: Aes, userKey: Bytes, card: Card, d: Drawn, first: Bytes)
    requires FitsSize(d.rnd, first)
    ensures AesHello(p, userKey, card, d, first)[31..31 + |d.rnd|] == d.rnd
  {
  }
}
