/**
 * auth_chain in bytes: where the fields of frames and greetings are and what is in them, which frames are opened and
 * which are refused, and what keys a greeting gives.
 */
module ChainFormat {
  import opened ByteStrings
  import opened ChainCodec
  import opened ChainHandshake
  import opened FrameLoop
  import opened KeystreamCipher
  import opened Xorshift

  // ----- frames -----

  /** The payload as it is sent, the number of the byte in its direction choosing the byte of the key stream. */
  ghost predicate Enciphered(stream: Keystream, offset: nat, plain: Bytes, text: Bytes) {
    |text| == |plain| && forall i :: 0 <= i < |plain| ==> text[i] == Xor8(plain[i], stream(offset + i))
  }

  lemma StreamApplied(stream: Keystream, offset: nat, plain: Bytes)
    ensures Enciphered(stream, offset, plain, ApplyKeystream(stream, offset, plain))
  {
  }

  /** Masked length, padding with the enciphered payload inside, and two bytes of the digest of all before under the
      user key and the frame number. An empty payload leaves the padding alone. */
  lemma FrameLayout(p: Primitives, s: Session, e: Side, plain: Bytes, rnd: Bytes)
    requires GoodPadding(p) && CanPack(p, e, plain, rnd)
    ensures var f := Frame(p, s, e, plain, rnd);
            var n, rng := |f| - 2, p.padLen(|plain|, e.hash, e.rng).1;
            var pos := if plain == [] || rnd == [] then 0 else p.startPos(|rnd|, rng).0;
            && |f| == |plain| + |rnd| + 4 && pos <= |rnd|
            && f[..2] == Le16(Xor16(|plain|, UnLe16(e.hash[14..16])))
            && f[2..2 + pos] == rnd[..pos] && f[2 + pos + |plain|..n] == rnd[pos..]
            && Enciphered(p.rc4(s.cipherKey), e.offset, plain, f[2 + pos..2 + pos + |plain|])
            && f[n..] == p.mac(s.userKey + Le32(e.id), f[..n])[..2]
  {
    hide Le16, Le32, Xor16, UnLe16;
    var text := ApplyKeystream(p.rc4(s.cipherKey), e.offset, plain);
    StreamApplied(p.rc4(s.cipherKey), e.offset, plain);
    var rng := p.padLen(|plain|, e.hash, e.rng).1;
    var pos := if plain == [] || rnd == [] then 0 else p.startPos(|rnd|, rng).0;
    assert Body(p, text, rnd, rng).0 == rnd[..pos] + text + rnd[pos..];
    hide Body, GoodPadding, Enciphered;
    FieldsInOrder(Le16(Xor16(|plain|, Mask(e.hash))), rnd[..pos], text, rnd[pos..],
                  p.mac(s.userKey + Le32(e.id), FrameHead(p, s, e, plain, rnd))[..2]);
  }

  lemma FieldsInOrder(a: Bytes, b: Bytes, c: Bytes, d: Bytes, t: Bytes)
    ensures var f := a + (b + c + d) + t;
            && f[..|a|] == a && f[|a|..|a| + |b|] == b && f[|a| + |b|..|a| + |b| + |c|] == c
            && f[|a| + |b| + |c|..|f| - |t|] == d && f[|f| - |t|..] == t && f[..|f| - |t|] == a + (b + c + d)
  {
  }

  /** The frame changes what both ends keep: the whole digest, the next frame number, the key stream offset. */
  lemma NextFrame(p: Primitives, s: Session, e: Side, plain: Bytes, rnd: Bytes)
    requires CanPack(p, e, plain, rnd)
    ensures var f, e' := Frame(p, s, e, plain, rnd), AfterPack(p, s, e, plain, rnd);
            && e'.hash == p.mac(s.userKey + Le32(e.id), f[..|f| - 2])
            && e'.id == (e.id + 1) % 0x1_0000_0000 && e'.offset == e.offset + |plain|
  {
    var f := Frame(p, s, e, plain, rnd);
    assert f[..|f| - 2] == FrameHead(p, s, e, plain, rnd);
  }

  /** What a decoder makes of more than four bytes: the first two give the length of the payload, its digest the length
      of the padding; a sum of 4096 and more ends the protocol; an incomplete frame waits; and a complete one is opened
      if and only if its last two bytes are those of its digest under the user key and the frame number. */
  lemma TurnIs(p: Primitives, s: Session, d: Side, buf: Bytes)
    requires |buf| > 4
    ensures var n := Xor16(UnLe16(buf[..2]), UnLe16(d.hash[14..16]));
            var pad := p.padLen(n, d.hash, d.rng).0;
            var t := DecodeStep(p, s, d, buf);
            if n + pad >= 4096 then t.Stuck? && t.verdict == BadLength
            else if |buf| < n + pad + 4 then t.Stuck? && t.verdict == More
            else
              var hash := p.mac(s.userKey + Le32(d.id), buf[..n + pad + 2]);
              if hash[..2] != buf[n + pad + 2..n + pad + 4] then t.Stuck? && t.verdict == BadTag
              else
                && t.Got? && t.size == n + pad + 4 && |t.plain| == n
                && t.state.hash == hash && t.state.id == (d.id + 1) % 0x1_0000_0000 && t.state.offset == d.offset + n
  {
    hide Xor16, UnLe16, Le32;
    var n, pad := Announced(p, d, buf[..2]).0, Announced(p, d, buf[..2]).1;
    if n + pad < 4096 && |buf| >= n + pad + 4 {
      assert buf[..n + pad + 4][..n + pad + 2] == buf[..n + pad + 2];
      assert buf[..n + pad + 4][n + pad + 2..] == buf[n + pad + 2..n + pad + 4];
    }
  }

  lemma ShortTurnWaits(p: Primitives, s: Session, d: Side, buf: Bytes)
    requires |buf| <= 4
    ensures DecodeStep(p, s, d, buf) == Stuck(More, d)
  {
  }

  // ----- greetings -----

  /** Four random bytes, eight of their digest under IV and server key, the user id masked with four more bytes of it,
      the block with time, client id, connection id and overhead under the user key, and four bytes of the digest of the
      last twenty under the user key. The two digests start the two directions, and with the user key the first of them
      gives the key of the stream. */
  lemma HelloLayout(p: Primitives, macKey: Bytes, userKey: Bytes, salt: Bytes, uid: U32, card: Card, head: Bytes)
    requires |head| == 4
    ensures var f, g := Hello(p, macKey, userKey, salt, uid, card, head),
                        Greet(p, macKey, userKey, salt, uid, card, head);
            var hash := p.mac(macKey, head);
            && |f| == 36 && f[..4] == head && f[4..12] == hash[..8]
            && f[12..16] == Le32(Xor32(uid, UnLe32(hash[8..12])))
            && f[16..32] == p.aesEncrypt(p.base64(userKey) + salt,
                                         Le32(card.utc) + Le32(card.clientId) + Le32(card.connectionId)
                                         + Le16(card.overhead) + [0, 0])
            && f[32..] == p.mac(userKey, f[12..32])[..4]
            && g.clientHash == hash && g.serverHash == p.mac(userKey, f[12..32]) && g.card == card
            && g.session.userKey == userKey && g.session.cipherKey == p.base64(userKey) + p.base64(hash)
  {
    HelloParts(p, macKey, userKey, salt, uid, card, head);
    assert Le16(0) == [0, 0];
    hide Le16, Le32, UnLe32, Xor32, Hello;
    var f := Hello(p, macKey, userKey, salt, uid, card, head);
    assert f[32..36] == f[32..];
  }
}
